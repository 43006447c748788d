/** Shared vocabulary of the context compiler. Identifiers are naturals; a message is what the compiler looks at,
    with its text reduced to an opaque `content`. */
module ContextTypes {

  type Id = nat

  /** The position of one journal event. Store sequences start at 1. */
  datatype Cursor = Cursor(id: Id, at: nat)

  datatype Role = System | User | Assistant | Tool

  /** `human`: a user message that is not made of tool results. `pinned` and `page` are the two markers the
      reduction looks for; `calls` and `results` are the tool call ids it carries. */
  datatype Message = Message(role: Role, human: bool, pinned: bool, page: bool, calls: set<Id>, results: set<Id>, content: nat)

  predicate Before(a: Cursor, b: Cursor) { a.at < b.at || (a.at == b.at && a.id < b.id) }

  function BeforeFn(): (Cursor, Cursor) -> bool { (a: Cursor, b: Cursor) => Before(a, b) }
}
