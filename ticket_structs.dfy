/** The local `Ticket` of the Structs theory unit: a status test and an empty default. */
module TicketStructs {

  datatype Ticket = Ticket(title: string, description: string, status: string) {

    /** `is_open`: the status is exactly the string "Open". */
    predicate IsOpen() {
      status == "Open"
    }
  }

  /** `Ticket::default`: every field is the empty string. */
  function Default(): (t: Ticket)
    ensures t.title == [] && t.description == [] && t.status == []
  {
    Ticket("", "", "")
  }

  /** `is_open` reads only the status: the title and description never change its answer. */
  lemma IsOpenOnlyReadsStatus(a: Ticket, b: Ticket)
    requires a.status == b.status
    ensures a.IsOpen() == b.IsOpen()
  {
  }

  /**
   * The comparison is exact: every status other than "Open" is not open,
   * whatever the title and description; there is no case folding and no
   * trimming, so in particular "open", " Open" and "Open " are not open.
   */
  lemma IsOpenIsExact(title: string, description: string, status: string)
    ensures status != "Open" ==> !Ticket(title, description, status).IsOpen()
    ensures Ticket(title, description, "Open").IsOpen()
    ensures !Ticket(title, description, "open").IsOpen()
    ensures !Ticket(title, description, " Open").IsOpen()
    ensures !Ticket(title, description, "Open ").IsOpen()
  {
  }

  /** The default ticket is not open. */
  lemma DefaultIsNotOpen()
    ensures !Default().IsOpen()
  {
  }
}
