/**
 * The translation of a failed wallet or contract call into one of seven
 * fixed user-facing messages (`parseMoveError`). The error's text is
 * searched for known markers by plain substring containment, in a fixed
 * priority order; anything unrecognised, or a failure to obtain the text at
 * all, becomes the generic message.
 */
module MoveErrors {
  import opened Wrappers
  import opened JsText

  /**
   * What `onError` receives: a string, or an object with an optional
   * `message` and the result of `JSON.stringify` on it (`None` when that
   * throws or yields `undefined`).
   */
  datatype ErrorPayload = TextError(text: string) | ObjectError(message: Option<string>, json: Option<string>)

  /** The text the markers are searched in; `None` where reading it throws. */
  function ErrorText(e: ErrorPayload): (t: Option<string>)
    ensures e.TextError? ==> t == Some(e.text)
    ensures e.ObjectError? && e.message.Some? && e.message.value != "" ==> t == e.message
    ensures e.ObjectError? && (e.message.None? || e.message.value == "") ==> t == e.json
  {
    match e
    case TextError(s) => Some(s)
    case ObjectError(m, j) => if m.Some? && m.value != "" then m else j
  }

  /** The seven outcomes, highest priority first. */
  datatype Reason = Cancelled | AlreadyVoted | MarketEnded | NotWhitelisted | InvalidOption | InsufficientBalance | Failed

  function Message(r: Reason): string {
    match r
    case Cancelled => "Transaction cancelled by user"
    case AlreadyVoted => "EAlreadyVoted"
    case MarketEnded => "This market has ended"
    case NotWhitelisted => "ENotWhitelisted"
    case InvalidOption => "Invalid option selected"
    case InsufficientBalance => "Insufficient SUI balance"
    case Failed => "Transaction failed"
  }

  /** The seven messages `parseMoveError` can return. */
  const Messages: set<string> := {
    "Transaction cancelled by user", "EAlreadyVoted", "This market has ended", "ENotWhitelisted",
    "Invalid option selected", "Insufficient SUI balance", "Transaction failed"}

  /** Position in the priority order: a lower rank is checked first. */
  function Rank(r: Reason): nat {
    match r
    case Cancelled => 0
    case AlreadyVoted => 1
    case MarketEnded => 2
    case NotWhitelisted => 3
    case InvalidOption => 4
    case InsufficientBalance => 5
    case Failed => 6
  }

  /** The markers that select each reason (the generic reason has none). */
  function Markers(r: Reason): seq<string> {
    match r
    case Cancelled => ["User rejected", "rejected the request"]
    case AlreadyVoted => ["EAlreadyVoted", "code: 4", "abort code: 4"]
    case MarketEnded => ["EMarketEnded", "code: 0", "abort code: 0"]
    case NotWhitelisted => ["ENotWhitelisted", "code: 1", "abort code: 1"]
    case InvalidOption => ["EInvalidOption", "code: 3", "abort code: 3"]
    case InsufficientBalance => ["Insufficient"]
    case Failed => []
  }

  /** Some marker of reason `r` occurs in the text. */
  predicate Matches(t: string, r: Reason) {
    exists k :: 0 <= k < |Markers(r)| && Includes(t, Markers(r)[k])
  }

  /**
   * The if-chain of `parseMoveError` on the error text. Its result is the
   * reason of highest priority that some marker selects, and the generic
   * failure exactly when no marker occurs.
   */
  function Classify(t: string): (r: Reason)
    ensures r != Failed ==> Matches(t, r)
    ensures forall q :: Rank(q) < Rank(r) ==> !Matches(t, q)
    ensures r == Failed <==> forall q :: q != Failed ==> !Matches(t, q)
  {
    MatchesUnfold(t);
    if Includes(t, "User rejected") || Includes(t, "rejected the request") then
      Cancelled
    else if Includes(t, "EAlreadyVoted") || Includes(t, "code: 4") || Includes(t, "abort code: 4") then
      AlreadyVoted
    else if Includes(t, "EMarketEnded") || Includes(t, "code: 0") || Includes(t, "abort code: 0") then
      MarketEnded
    else if Includes(t, "ENotWhitelisted") || Includes(t, "code: 1") || Includes(t, "abort code: 1") then
      NotWhitelisted
    else if Includes(t, "EInvalidOption") || Includes(t, "code: 3") || Includes(t, "abort code: 3") then
      InvalidOption
    else if Includes(t, "Insufficient") then
      InsufficientBalance
    else
      Failed
  }

  /** What each reason's markers amount to, marker by marker. */
  lemma MatchesUnfold(t: string)
    ensures Matches(t, Cancelled) <==> Includes(t, "User rejected") || Includes(t, "rejected the request")
    ensures Matches(t, AlreadyVoted) <==>
      Includes(t, "EAlreadyVoted") || Includes(t, "code: 4") || Includes(t, "abort code: 4")
    ensures Matches(t, MarketEnded) <==>
      Includes(t, "EMarketEnded") || Includes(t, "code: 0") || Includes(t, "abort code: 0")
    ensures Matches(t, NotWhitelisted) <==>
      Includes(t, "ENotWhitelisted") || Includes(t, "code: 1") || Includes(t, "abort code: 1")
    ensures Matches(t, InvalidOption) <==>
      Includes(t, "EInvalidOption") || Includes(t, "code: 3") || Includes(t, "abort code: 3")
    ensures Matches(t, InsufficientBalance) <==> Includes(t, "Insufficient")
    ensures !Matches(t, Failed)
  {
    forall r | r != Failed ensures Matches(t, r) <==> exists k :: 0 <= k < |Markers(r)| && Includes(t, Markers(r)[k]) {
    }
    assert Markers(Cancelled)[0] == "User rejected" && Markers(Cancelled)[1] == "rejected the request";
    assert Markers(AlreadyVoted)[0] == "EAlreadyVoted" && Markers(AlreadyVoted)[1] == "code: 4";
    assert Markers(AlreadyVoted)[2] == "abort code: 4";
    assert Markers(MarketEnded)[0] == "EMarketEnded" && Markers(MarketEnded)[1] == "code: 0";
    assert Markers(MarketEnded)[2] == "abort code: 0";
    assert Markers(NotWhitelisted)[0] == "ENotWhitelisted" && Markers(NotWhitelisted)[1] == "code: 1";
    assert Markers(NotWhitelisted)[2] == "abort code: 1";
    assert Markers(InvalidOption)[0] == "EInvalidOption" && Markers(InvalidOption)[1] == "code: 3";
    assert Markers(InvalidOption)[2] == "abort code: 3";
    assert Markers(InsufficientBalance)[0] == "Insufficient";
  }

  /** `parseMoveError`: always one of the seven messages; the generic one when the text cannot be read. */
  function ParseMoveError(e: ErrorPayload): (s: string)
    ensures s in Messages
    ensures ErrorText(e).None? ==> s == "Transaction failed"
    ensures ErrorText(e).Some? ==> s == Message(Classify(ErrorText(e).value))
  {
    match ErrorText(e)
    case None => Message(Failed)
    case Some(t) => Message(Classify(t))
  }

  /** The message determines the reason, so no two outcomes are confused on screen. */
  lemma MessageInjective(a: Reason, b: Reason)
    requires Message(a) == Message(b)
    ensures a == b
  {
  }

  /** A cancellation marker wins over every abort code that the same text carries. */
  lemma CancellationWins(e: ErrorPayload, t: string)
    requires ErrorText(e) == Some(t)
    requires Includes(t, "User rejected") || Includes(t, "rejected the request")
    ensures ParseMoveError(e) == "Transaction cancelled by user"
  {
    MatchesUnfold(t);
  }

  /** An abort code 4 reads as "already voted" unless the user cancelled. */
  lemma AbortCodeFourIsAlreadyVoted(t: string)
    requires Includes(t, "code: 4")
    requires !Includes(t, "User rejected") && !Includes(t, "rejected the request")
    ensures Classify(t) == AlreadyVoted
  {
    MatchesUnfold(t);
  }

  /**
   * The `"abort code: N"` markers are redundant: each contains the `"code: N"`
   * marker checked just before it, so a text that has one has the other.
   */
  lemma AbortMarkerSubsumed(t: string, digit: char)
    requires Includes(t, "abort code: " + [digit])
    ensures Includes(t, "code: " + [digit])
  {
    var long := "abort code: " + [digit];
    var short := "code: " + [digit];
    assert long[6..6 + |short|] == short;
    OccursIncludes(long, short, 6);
    IncludesTransitive(t, long, short);
  }

  /** Because matching is by containment, abort code 40 is read as code 4, "already voted". */
  lemma CodeFortyReadsAsAlreadyVoted(t: string)
    requires t == "abort code: 40"
    ensures Classify(t) == AlreadyVoted
  {
    assert t[6..13] == "code: 4";
    OccursIncludes(t, "code: 4", 6);
    FirstCharAbsent(t, "User rejected");
    NotIncludedInShort(t, "rejected the request");
    AbortCodeFourIsAlreadyVoted(t);
  }

  /** Likewise abort code 13 is read as code 1, "not whitelisted". */
  lemma CodeThirteenReadsAsNotWhitelisted(t: string)
    requires t == "abort code: 13"
    ensures Classify(t) == NotWhitelisted
  {
    assert t[6..13] == "code: 1";
    OccursIncludes(t, "code: 1", 6);
    FirstCharAbsent(t, "User rejected");
    NotIncludedInShort(t, "rejected the request");
    FirstCharAbsent(t, "EAlreadyVoted");
    FirstCharAbsent(t, "EMarketEnded");
    NoOccurrence(t, "code: 4");
    NoOccurrence(t, "code: 0");
    NoOccurrence(t, "abort code: 4");
    NoOccurrence(t, "abort code: 0");
  }

  /** A text shorter than the pattern does not include it. */
  lemma NotIncludedInShort(t: string, p: string)
    requires |t| < |p|
    ensures !Includes(t, p)
  {
    IncludesIff(t, p);
  }

  /** A text without the pattern's first character does not include it. */
  lemma FirstCharAbsent(t: string, p: string)
    requires p != [] && p[0] !in t
    ensures !Includes(t, p)
  {
    IncludesIff(t, p);
    forall i | 0 <= i <= |t| - |p| ensures !OccursAt(t, p, i) {
      assert t[i] in t;
    }
  }

  /** `"abort code: 13"` has none of the markers of codes 4 and 0 at any position. */
  lemma NoOccurrence(t: string, p: string)
    requires t == "abort code: 13"
    requires p in {"code: 4", "code: 0", "abort code: 4", "abort code: 0"}
    ensures !Includes(t, p)
  {
    IncludesIff(t, p);
    forall i | 0 <= i <= |t| - |p| ensures !OccursAt(t, p, i) {
      if p[0] == 'c' {
        if i == 6 {
          assert t[12] != p[6];
        } else {
          assert t[i] != p[0];
        }
      } else {
        if i == 0 {
          assert t[12] != p[12];
        } else {
          assert t[i] != p[0];
        }
      }
    }
  }

  /**
   * The message the whitelist manager shows when adding an address fails:
   * the cancellation text passes through, every other failure is generic.
   */
  function WhitelistFailureMessage(e: ErrorPayload): (s: string)
    ensures s == "Transaction cancelled by user" || s == "Failed to add address"
    ensures s == "Transaction cancelled by user" <==> ParseMoveError(e) == "Transaction cancelled by user"
  {
    var error := ParseMoveError(e);
    if error == "Transaction cancelled by user" then error else "Failed to add address"
  }
}
