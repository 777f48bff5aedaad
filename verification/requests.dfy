/** Requests on the wire: "addr:node", "addr:rd", "addr:none" and "addr", with numbers in decimal. */
module RequestText {
  import opened Types
  import opened NumberText
  import opened PageProtocol

  const PAGE_BYTES: nat := 4096

  /** The address of the page that holds the byte at `addr`. */
  function PageAlign(addr: nat): (a: nat)
    ensures a % PAGE_BYTES == 0 && a <= addr < a + PAGE_BYTES
  {
    (addr / PAGE_BYTES) * PAGE_BYTES
  }

  datatype Request = Request(addr: nat, node: nat)
  datatype Fetch = Fetch(addr: nat, access: Access)

  /** The position of the first `c`, or the length if there is none. */
  function Find(s: string, c: char): (k: nat)
    ensures k <= |s| && (k < |s| ==> s[k] == c) && forall j | 0 <= j < k :: s[j] != c
  {
    if s == "" || s[0] == c then 0 else 1 + Find(s[1..], c)
  }

  /** The text before the first ':', or all of it. */
  function Before(s: string): string { s[..Find(s, ':')] }

  /** The text after the first ':'; without a ':' it is all but the last character. */
  function Behind(s: string): string {
    var sep := Find(s, ':');
    if sep < |s| then s[sep + 1..] else if s == "" then "" else s[..|s| - 1]
  }

  lemma SplitsAtColon(left: string, right: string)
    requires forall k | 0 <= k < |left| :: left[k] != ':'
    ensures Before(left + ":" + right) == left && Behind(left + ":" + right) == right
  {
    var s := left + ":" + right;
    assert s[|left|] == ':';
    assert Find(s, ':') == |left|;
  }

  // ---------- requests for a page ----------

  function RequestToText(addr: nat, node: nat): string {
    ToString(PageAlign(addr)) + ":" + ToString(node)
  }

  function TextToRequest(s: string): Result<Request> {
    var addr :- Stoul(Before(s), 10);
    var node :- Stoul(Behind(s), 10);
    Ok(Request(PageAlign(addr), node))
  }

  lemma RequestRoundTrip(addr: nat, node: nat)
    requires addr < WORD_LIMIT && node < WORD_LIMIT
    ensures TextToRequest(RequestToText(addr, node)) == Ok(Request(PageAlign(addr), node))
  {
    SplitsAtColon(ToString(PageAlign(addr)), ToString(node));
    StoulOfToString(PageAlign(addr));
    StoulOfToString(node);
  }

  /**
   * What is sent is the page's own address and the node: the same text for every address of the page,
   * with a multiple of the page size at or just below the address in front.
   */
  lemma RequestNamesThePage(addr: nat, other: nat, node: nat)
    requires addr < WORD_LIMIT && node < WORD_LIMIT && addr / PAGE_BYTES == other / PAGE_BYTES
    ensures RequestToText(addr, node) == RequestToText(other, node)
    ensures var text := RequestToText(addr, node);
            var r := Stoul(Before(text), 10);
            r.Ok? && r.value % PAGE_BYTES == 0 && r.value <= addr < r.value + PAGE_BYTES &&
            Stoul(Behind(text), 10) == Ok(node)
  {
    SplitsAtColon(ToString(PageAlign(addr)), ToString(node));
    StoulOfToString(PageAlign(addr));
    StoulOfToString(node);
  }

  /** Printing what a request text without superfluous digits parses to gives the text back. */
  lemma RequestOfText(left: string, right: string)
    requires Canonical(left) && Canonical(right) && Stoul(left, 10).Ok? && Stoul(right, 10).Ok?
    requires Stoul(left, 10).value % PAGE_BYTES == 0
    ensures var r := TextToRequest(left + ":" + right);
            r.Ok? && RequestToText(r.value.addr, r.value.node) == left + ":" + right
  {
    hide Stoul, ToString;
    SplitsAtColon(left, right);
    ToStringOfStoul(left);
    ToStringOfStoul(right);
  }

  lemma DecimalDigits(s: string)
    requires forall k | 0 <= k < |s| :: '0' <= s[k] <= '9'
    ensures forall k | 0 <= k < |s| :: IsDigit(s[k], 10)
  {
  }

  lemma NothingIsNoNumber()
    ensures Stoul("", 10) == Err(InvalidArgument)
  {
  }

  /** Without a ':' the same digits are read twice, the second time without the last one. */
  lemma RequestWithoutColon(s: string)
    requires s != "" && (forall k | 0 <= k < |s| :: '0' <= s[k] <= '9') && Value(s, 10) < WORD_LIMIT
    ensures TextToRequest(s) == if |s| == 1 then Err(InvalidArgument)
                                else Ok(Request(PageAlign(Value(s, 10)), Value(s, 10) / 10))
  {
    hide Stoul, IsDigit, Value, Find, PageAlign;
    var front := s[..|s| - 1];
    DecimalDigits(s);
    NothingIsNoNumber();
    NothingToSplit(s);
    StoulOfDigits(s, 10);
    ValueOfFront(s);
    if |s| > 1 { StoulOfDigits(front, 10); }
  }

  lemma NothingToSplit(s: string)
    requires s != "" && forall k | 0 <= k < |s| :: '0' <= s[k] <= '9'
    ensures Before(s) == s && Behind(s) == s[..|s| - 1]
  {
  }

  lemma ValueOfFront(s: string)
    requires s != "" && forall k | 0 <= k < |s| :: '0' <= s[k] <= '9'
    ensures Value(s[..|s| - 1], 10) == Value(s, 10) / 10 <= Value(s, 10)
  {
    assert DigitOr0(s[|s| - 1]) < 10;
  }

  // ---------- fetches ----------

  function AccessToText(access: Access): string
    requires !access.ReadWrite?
  {
    if access.ReadOnly? then "rd" else "none"
  }

  function FetchToText(addr: nat, access: Access): string
    requires !access.ReadWrite?
  {
    ToString(addr) + ":" + AccessToText(access)
  }

  function TextToFetch(s: string): Result<Fetch> {
    if Behind(s) != "rd" && Behind(s) != "none" then Err(UnknownAccess)
    else
      var addr :- Stoul(Before(s), 10);
      Ok(Fetch(addr, if Behind(s) == "rd" then ReadOnly else NoAccess))
  }

  lemma FetchRoundTrip(addr: nat, access: Access)
    requires addr < WORD_LIMIT && !access.ReadWrite?
    ensures TextToFetch(FetchToText(addr, access)) == Ok(Fetch(addr, access))
  {
    SplitsAtColon(ToString(addr), AccessToText(access));
    StoulOfToString(addr);
    assert AccessToText(ReadOnly) != AccessToText(NoAccess) by { assert |"rd"| != |"none"|; }
  }

  /** "rd" asks for read-only access to be left behind, and "none" for none. */
  lemma FetchOfText(left: string, right: string)
    requires Canonical(left) && Stoul(left, 10).Ok? && (right == "rd" || right == "none")
    ensures var access := if right == "rd" then ReadOnly else NoAccess;
            TextToFetch(left + ":" + right) == Ok(Fetch(Stoul(left, 10).value, access)) &&
            FetchToText(Stoul(left, 10).value, access) == left + ":" + right
  {
    SplitsAtColon(left, right);
    ToStringOfStoul(left);
    assert "rd" != "none" by { assert |"rd"| != |"none"|; }
  }

  // ---------- invalidations ----------

  function TextToInvalidation(s: string): Result<nat> {
    var addr :- Stoul(s, 10);
    Ok(PageAlign(addr))
  }

  lemma InvalidationRoundTrip(addr: nat)
    requires addr < WORD_LIMIT
    ensures TextToInvalidation(ToString(addr)) == Ok(PageAlign(addr))
  {
    StoulOfToString(addr);
  }

  /** The page's address is not changed by sending it, and is sent as it is. */
  lemma InvalidationOfText(s: string)
    requires Canonical(s) && Stoul(s, 10).Ok? && Stoul(s, 10).value % PAGE_BYTES == 0
    ensures TextToInvalidation(s).Ok? && ToString(TextToInvalidation(s).value) == s
  {
    ToStringOfStoul(s);
  }
}
