/**
 * The ticket of the Deref exercise: three stored strings, of which `title`
 * and `description` are read back normalised (whitespace trimmed from both
 * ends) and `status` is kept as given.
 */
module DerefTrait {
  import opened StrTrim

  /** The stored fields are private in the source; only the accessors read them. */
  datatype Ticket = Ticket(title: string, description: string, status: string) {

    /** `Ticket::title`: the stored title without leading or trailing whitespace. */
    function Title(): (r: string)
      ensures DropsOnlyEdgeWhitespace(title, r)
      ensures !HasEdgeWhitespace(r)
    {
      Trim(title)
    }

    /** `Ticket::description`: the stored description without leading or trailing whitespace. */
    function Description(): (r: string)
      ensures DropsOnlyEdgeWhitespace(description, r)
      ensures !HasEdgeWhitespace(r)
    {
      Trim(description)
    }
  }

  /** `Ticket::new`: stores its three arguments as they are, without normalising any. */
  function New(title: string, description: string, status: string): (t: Ticket)
    ensures t.title == title && t.description == description && t.status == status
  {
    Ticket(title, description, status)
  }

  /**
   * What a new ticket reads back: the accessors give exactly the trimmed
   * arguments (no other string meets their contracts), and the status keeps
   * any edge whitespace it was given.
   */
  lemma NewReadsBackTrimmed(title: string, description: string, status: string)
    ensures New(title, description, status).Title() == Trim(title)
    ensures New(title, description, status).Description() == Trim(description)
    ensures HasEdgeWhitespace(status) ==> New(title, description, status).status != Trim(status)
  {
    TrimCharacterised(status, status);
  }

  /** A field that is empty or all whitespace reads back as the empty string, and only such a field. */
  lemma BlankFieldsReadEmpty(t: Ticket)
    ensures t.Title() == [] <==> AllWhitespace(t.title)
    ensures t.Description() == [] <==> AllWhitespace(t.description)
  {
    TrimEmptyIffBlank(t.title);
    TrimEmptyIffBlank(t.description);
  }

  /**
   * Normalisation is idempotent: storing what the accessors returned in a new
   * ticket and reading it again gives the same strings back.
   */
  lemma NormalisedFieldsAreStable(t: Ticket)
    ensures New(t.Title(), t.Description(), t.status).Title() == t.Title()
    ensures New(t.Title(), t.Description(), t.status).Description() == t.Description()
  {
    TrimIdempotent(t.title);
    TrimIdempotent(t.description);
  }
}
