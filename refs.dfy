/** Polymorphic record references, as the Rails models store them
    (a `*_type` class name next to a `*_id`). */
module Refs {

  /** A reference to a persisted record: its class name and its id. */
  datatype Ref = Ref(className: string, id: int)

  /** The sentinel id the moderation engine uses for itself as an actor. */
  const SystemId: int := -1

  /** The owner of every activity the state machine records. */
  const System: Ref := Ref("System", SystemId)
}
