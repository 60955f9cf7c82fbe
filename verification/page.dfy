/**
 The state of the dashboard page and the transitions the user drives: the initial
 load from storage, editing the three form fields, toggling the form, submitting it
 ("Add") and removing a card ("Remove"), plus the dash shown for a missing field.

 Randomness and storage are parameters: every fresh identifier the page would draw
 is passed in, and so are the outcome of the storage read and the JSON parser.
 */
module Page {
  import opened Wrappers
  import opened Text
  import opened Companies

  /** Everything the page keeps in component state. */
  datatype PageState = PageState(
    companies: seq<Company>,
    showForm: bool,
    name: string,
    ticker: string,
    sector: string)

  /** The three text inputs of the add form. */
  datatype Field = NameField | TickerField | SectorField

  /**
   What reading the storage key `"companies_dashboard_v1"` yields: no entry, a
   string, or an exception.
   */
  datatype Stored = NoValue | Value(text: string) | StorageError

  /** What the JSON parser yields for a stored string: a list, or an exception. */
  datatype ParseResult = Parsed(list: seq<Company>) | ParseError

  /** What a card shows in place of a missing ticker or sector. */
  const Dash: string := "—"

  /** The state before the first effect runs: no records, form closed and empty. */
  const Initial: PageState := PageState([], false, "", "", "")

  /** The two example records a first visit starts with, given the identifiers drawn for them. */
  function Seeds(id1: string, id2: string): seq<Company> {
    [ Company(id1, "Acme Corp", Some("ACM"), Some("Technology")),
      Company(id2, "Globex", Some("GLX"), Some("Finance")) ]
  }

  /**
   The list the load effect installs. No stored value, or an empty string, gives
   the seeds; a stored string gives whatever the parser makes of it, unvalidated;
   an exception from the storage read or from the parser gives the empty list.
   */
  function Load(stored: Stored, parse: string -> ParseResult, id1: string, id2: string): (r: seq<Company>)
    ensures stored == NoValue || stored == Value("") ==> r == Seeds(id1, id2)
    ensures stored.Value? && stored.text != "" && parse(stored.text).Parsed? ==> r == parse(stored.text).list
    ensures stored.Value? && stored.text != "" && parse(stored.text).ParseError? ==> r == []
    ensures stored == StorageError ==> r == []
  {
    match stored
    case StorageError => []
    case NoValue => Seeds(id1, id2)
    case Value(text) =>
      if text == "" then Seeds(id1, id2)
      else
        match parse(text)
        case Parsed(list) => list
        case ParseError => []
  }

  /** The page right after mounting: the loaded list, with the form closed and empty. */
  function Mount(stored: Stored, parse: string -> ParseResult, id1: string, id2: string): (r: PageState)
    ensures r.companies == Load(stored, parse, id1, id2)
    ensures !r.showForm && r.name == "" && r.ticker == "" && r.sector == ""
  {
    Initial.(companies := Load(stored, parse, id1, id2))
  }

  /** The current text of one form input. */
  function FieldValue(st: PageState, f: Field): string {
    match f
    case NameField => st.name
    case TickerField => st.ticker
    case SectorField => st.sector
  }

  /** Typing into one form input: that input takes the new text and nothing else changes. */
  function Edit(st: PageState, f: Field, v: string): (r: PageState)
    ensures FieldValue(r, f) == v
    ensures forall g :: g != f ==> FieldValue(r, g) == FieldValue(st, g)
    ensures r.companies == st.companies && r.showForm == st.showForm
  {
    match f
    case NameField => st.(name := v)
    case TickerField => st.(ticker := v)
    case SectorField => st.(sector := v)
  }

  /** The header button: opens a closed form, closes an open one, and touches nothing else. */
  function ToggleForm(st: PageState): (r: PageState)
    ensures r.showForm != st.showForm
    ensures r.companies == st.companies
    ensures r.name == st.name && r.ticker == st.ticker && r.sector == st.sector
  {
    st.(showForm := !st.showForm)
  }

  /**
   Submitting the form with `freshId` as the drawn identifier. A blank name is
   refused and the page stays exactly as it was; otherwise a record of the trimmed
   inputs goes to the front of the list and the form is cleared and closed.
   */
  function Add(st: PageState, freshId: string): (r: PageState)
    ensures IsBlank(st.name) ==> r == st
    ensures !IsBlank(st.name) ==>
      && |r.companies| == |st.companies| + 1
      && r.companies[1..] == st.companies
      && r.companies[0].id == freshId
      && r.companies[0].name == Trim(st.name)
      && r.companies[0].ticker == Some(Trim(st.ticker))
      && r.companies[0].sector == Some(Trim(st.sector))
      && r.name == "" && r.ticker == "" && r.sector == "" && !r.showForm
  {
    if Trim(st.name) == "" then st
    else
      var c := Company(freshId, Trim(st.name), Some(Trim(st.ticker)), Some(Trim(st.sector)));
      PageState([c] + st.companies, false, "", "", "")
  }

  /** The "Remove" button of a card: only the list changes. */
  function RemoveCompany(st: PageState, id: string): (r: PageState)
    ensures r.companies == Remove(st.companies, id)
    ensures r.showForm == st.showForm && r.name == st.name && r.ticker == st.ticker && r.sector == st.sector
  {
    st.(companies := Remove(st.companies, id))
  }

  /** The text a card shows for an optional field: the value, or a dash when it is missing or empty. */
  function Shown(o: Option<string>): (r: string)
    ensures r != ""
    ensures o.Some? && o.value != "" ==> r == o.value
    ensures o == None || o == Some("") ==> r == Dash
  {
    if o.Some? && o.value != "" then o.value else Dash
  }

  /** A record as the form creates it: a non-empty trimmed name and trimmed ticker and sector. */
  predicate FormMade(c: Company) {
    && c.name != "" && IsTrimmed(c.name)
    && c.ticker.Some? && IsTrimmed(c.ticker.value)
    && c.sector.Some? && IsTrimmed(c.sector.value)
  }

  /** Every record of `cs` is one the form could have created. */
  predicate AllFormMade(cs: seq<Company>) {
    forall k :: 0 <= k < |cs| ==> FormMade(cs[k])
  }

  /** Submitting changes the list exactly when the name is not blank, so a refused submit is invisible. */
  lemma AddChangesIffNameNotBlank(st: PageState, freshId: string)
    ensures Add(st, freshId) == st <==> IsBlank(st.name)
    ensures Add(st, freshId).companies == st.companies <==> IsBlank(st.name)
  {
  }

  /** The stored record is non-empty, has no whitespace at either end, and trimming it again changes nothing. */
  lemma AddedRecordIsClean(st: PageState, freshId: string)
    requires !IsBlank(st.name)
    ensures FormMade(Add(st, freshId).companies[0])
    ensures Trim(Add(st, freshId).companies[0].name) == Add(st, freshId).companies[0].name
  {
    TrimIdempotent(st.name);
  }

  /** Removing the identifier just drawn undoes a submit, when that identifier was not already in use. */
  lemma RemoveUndoesAdd(st: PageState, freshId: string)
    requires !HasId(st.companies, freshId)
    ensures Remove(Add(st, freshId).companies, freshId) == st.companies
  {
    var r := Add(st, freshId).companies;
    if !IsBlank(st.name) {
      assert r == [r[0]] + st.companies;
      RemoveAppend([r[0]], st.companies, freshId);
    }
    RemoveAbsent(st.companies, freshId);
  }

  /** Submitting keeps every record form-made. */
  lemma AddKeepsFormMade(st: PageState, freshId: string)
    requires AllFormMade(st.companies)
    ensures AllFormMade(Add(st, freshId).companies)
  {
    if !IsBlank(st.name) {
      var r := Add(st, freshId).companies;
      forall k | 0 <= k < |r| ensures FormMade(r[k]) {
        if k > 0 { assert r[k] == st.companies[k - 1]; }
      }
    }
  }

  /** Removing keeps every record form-made. */
  lemma RemoveKeepsFormMade(cs: seq<Company>, id: string)
    requires AllFormMade(cs)
    ensures AllFormMade(Remove(cs, id))
  {
    var r := Remove(cs, id);
    forall k | 0 <= k < |r| ensures FormMade(r[k]) {
      assert r[k] in cs;
    }
  }

  /** Submitting with an identifier not yet in use keeps identifiers distinct. */
  lemma AddKeepsDistinct(st: PageState, freshId: string)
    requires DistinctIds(st.companies) && !HasId(st.companies, freshId)
    ensures DistinctIds(Add(st, freshId).companies)
  {
    if !IsBlank(st.name) {
      var r := Add(st, freshId).companies;
      forall p, q | 0 <= p < q < |r| ensures r[p].id != r[q].id {
        assert r[q] == st.companies[q - 1];
        if p > 0 { assert r[p] == st.companies[p - 1]; }
      }
    }
  }

  /**
   A first visit (nothing stored, or an empty string) starts with Acme Corp (ACM,
   Technology) followed by Globex (GLX, Finance); both are form-made records, and
   their identifiers are distinct when the two drawn identifiers are.
   */
  lemma FirstVisitSeeds(stored: Stored, parse: string -> ParseResult, id1: string, id2: string)
    requires stored == NoValue || stored == Value("")
    ensures var r := Load(stored, parse, id1, id2);
      && |r| == 2
      && r[0] == Company(id1, "Acme Corp", Some("ACM"), Some("Technology"))
      && r[1] == Company(id2, "Globex", Some("GLX"), Some("Finance"))
      && AllFormMade(r)
      && (id1 != id2 ==> DistinctIds(r))
  {
    var r := Load(stored, parse, id1, id2);
    assert r == Seeds(id1, id2);
    SeedsFormMade(id1, id2);
  }

  /** Both seed records are ones the form could have created. */
  lemma SeedsFormMade(id1: string, id2: string)
    ensures AllFormMade(Seeds(id1, id2))
  {
    var s := Seeds(id1, id2);
    assert FormMade(s[0]) by {
      assert s[0].name[0] == 'A' && s[0].name[8] == 'p';
      assert s[0].ticker.value[0] == 'A' && s[0].ticker.value[2] == 'M';
      assert s[0].sector.value[0] == 'T' && s[0].sector.value[9] == 'y';
    }
    assert FormMade(s[1]) by {
      assert s[1].name[0] == 'G' && s[1].name[5] == 'x';
      assert s[1].ticker.value[0] == 'G' && s[1].ticker.value[2] == 'X';
      assert s[1].sector.value[0] == 'F' && s[1].sector.value[6] == 'e';
    }
  }

  /** A failed storage read or parse leaves the list empty rather than seeded. */
  lemma FailedLoadIsEmpty(stored: Stored, parse: string -> ParseResult, id1: string, id2: string)
    requires stored == StorageError || (stored.Value? && stored.text != "" && parse(stored.text).ParseError?)
    ensures Load(stored, parse, id1, id2) == []
    ensures Load(stored, parse, id1, id2) != Seeds(id1, id2)
  {
  }

  /** Toggling twice restores the page. */
  lemma ToggleInvolution(st: PageState)
    ensures ToggleForm(ToggleForm(st)) == st
  {
  }

  /** On the new card, a ticker or sector that was blank when submitted shows as a dash, any other as its trimmed text. */
  lemma AddedCardShows(st: PageState, freshId: string)
    requires !IsBlank(st.name)
    ensures Shown(Add(st, freshId).companies[0].ticker) == if IsBlank(st.ticker) then Dash else Trim(st.ticker)
    ensures Shown(Add(st, freshId).companies[0].sector) == if IsBlank(st.sector) then Dash else Trim(st.sector)
  {
  }

  /** Inputs that are already clean are stored verbatim, ahead of the old records. */
  lemma AddCleanInputs(st: PageState, freshId: string)
    requires st.name != "" && IsTrimmed(st.name) && IsTrimmed(st.ticker) && IsTrimmed(st.sector)
    ensures Add(st, freshId).companies
      == [Company(freshId, st.name, Some(st.ticker), Some(st.sector))] + st.companies
  {
    TrimmedIsFixpoint(st.name);
    TrimmedIsFixpoint(st.ticker);
    TrimmedIsFixpoint(st.sector);
  }

  /**
   A worked example of adding: on a first visit, opening the form, typing
   "Initech", "IT" and "Tech" and submitting puts Initech first, ahead of the
   two seeds, and closes the form.
   */
  lemma InitechScenario(parse: string -> ParseResult, id1: string, id2: string, id3: string)
    ensures var formOpen := ToggleForm(Mount(NoValue, parse, id1, id2));
      var st := Edit(Edit(Edit(formOpen, NameField, "Initech"), TickerField, "IT"), SectorField, "Tech");
      var r := Add(st, id3);
      && formOpen.showForm
      && |r.companies| == 3
      && r.companies[0] == Company(id3, "Initech", Some("IT"), Some("Tech"))
      && r.companies[1..] == Seeds(id1, id2)
      && !r.showForm
  {
    var st := PageState(Seeds(id1, id2), true, "Initech", "IT", "Tech");
    assert Edit(Edit(Edit(ToggleForm(Mount(NoValue, parse, id1, id2)), NameField, "Initech"),
                     TickerField, "IT"), SectorField, "Tech") == st;
    AddCleanInputs(st, id3);
  }

  /** A worked example of removing: removing Globex from the seeds leaves Acme Corp alone. */
  lemma GlobexScenario(id1: string, id2: string)
    requires id1 != id2
    ensures Remove(Seeds(id1, id2), id2) == [Seeds(id1, id2)[0]]
  {
    var s := Seeds(id1, id2);
    assert s[1..] == [s[1]];
    assert Remove([s[1]], id2) == [];
  }
}
