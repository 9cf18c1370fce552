/**
 * The create-market form: the option list kept between two and ten
 * entries, the ordered validation of a submission, the parsing of the
 * newline-separated whitelist, the `create_market` call built from the form,
 * and the search of the transaction's object changes for the new market.
 */
module CreateMarket {
  import opened Wrappers
  import opened JsText
  import opened Chain

  const MinOptions: nat := 2
  const MaxOptions: nat := 10

  datatype AccessType = Public | Whitelist

  // ---------------------------------------------------------------------------
  // The option list

  /** `addOption`: one empty option more, unless the list already has ten. */
  function WithOptionAdded(options: seq<string>): (r: seq<string>)
    ensures |options| < MaxOptions ==> |r| == |options| + 1 && r[..|options|] == options && r[|options|] == ""
    ensures |options| >= MaxOptions ==> r == options
  {
    if |options| < MaxOptions then options + [""] else options
  }

  /** `options.filter((_, i) => i !== index)`: every element except the one at `index`, in order. */
  function DropIndex<T>(s: seq<T>, index: int): (r: seq<T>)
    ensures 0 <= index < |s| ==>
      && |r| == |s| - 1
      && (forall k :: 0 <= k < index ==> r[k] == s[k])
      && (forall k :: index <= k < |r| ==> r[k] == s[k + 1])
    ensures !(0 <= index < |s|) ==> r == s
  {
    if s == [] then []
    else (if index == 0 then [] else [s[0]]) + DropIndex(s[1..], index - 1)
  }

  /** `removeOption`: drops the option at `index` only while more than two remain. */
  function WithOptionRemoved(options: seq<string>, index: int): (r: seq<string>)
    ensures |options| > MinOptions && 0 <= index < |options| ==> r == options[..index] + options[index + 1..]
    ensures |options| <= MinOptions || !(0 <= index < |options|) ==> r == options
  {
    var r := if |options| > MinOptions then DropIndex(options, index) else options;
    assert |options| > MinOptions && 0 <= index < |options| ==> r == options[..index] + options[index + 1..];
    r
  }

  /** `updateOption`: a copy of the list with position `index` replaced. */
  function WithOptionUpdated(options: seq<string>, index: nat, value: string): (r: seq<string>)
    requires index < |options|
    ensures |r| == |options| && r[index] == value
    ensures forall k :: 0 <= k < |r| && k != index ==> r[k] == options[k]
  {
    options[index := value]
  }

  /** No edit takes a list that holds between two and ten options out of that range. */
  lemma EditsKeepOptionCount(options: seq<string>, index: int, value: string)
    requires MinOptions <= |options| <= MaxOptions
    ensures MinOptions <= |WithOptionAdded(options)| <= MaxOptions
    ensures MinOptions <= |WithOptionRemoved(options, index)| <= MaxOptions
    ensures 0 <= index < |options| ==> MinOptions <= |WithOptionUpdated(options, index, value)| <= MaxOptions
  {
  }

  // ---------------------------------------------------------------------------
  // Filled options and the whitelist

  /** An option whose trimmed text is empty. */
  predicate IsBlank(option: string) {
    Trim(option) == ""
  }

  function BlankCount(options: seq<string>): nat {
    if options == [] then 0 else (if IsBlank(options[0]) then 1 else 0) + BlankCount(options[1..])
  }

  /** `a` can be obtained from `b` by deleting elements. */
  predicate IsSubsequence<T(==)>(a: seq<T>, b: seq<T>) {
    a == [] || (b != [] && ((a[0] == b[0] && IsSubsequence(a[1..], b[1..])) || IsSubsequence(a, b[1..])))
  }

  /**
   * The texts that are not blank, untrimmed and in their original order;
   * exactly the blank ones are dropped. This is `filledOptions`, and the
   * same filter picks the whitelist lines.
   */
  function NonBlank(texts: seq<string>): (r: seq<string>)
    ensures IsSubsequence(r, texts)
    ensures forall k :: 0 <= k < |r| ==> !IsBlank(r[k])
    ensures |r| + BlankCount(texts) == |texts|
  {
    if texts == [] then []
    else
      var rest := NonBlank(texts[1..]);
      if IsBlank(texts[0]) then rest
      else
        var r := [texts[0]] + rest;
        assert r[1..] == rest;
        r
  }

  /** Each piece trimmed (`map((addr) => addr.trim())`). */
  function TrimEach(pieces: seq<string>): (r: seq<string>)
    ensures |r| == |pieces|
    ensures forall k :: 0 <= k < |r| ==> r[k] == Trim(pieces[k])
  {
    if pieces == [] then [] else [Trim(pieces[0])] + TrimEach(pieces[1..])
  }

  function EmptyCount(pieces: seq<string>): nat {
    if pieces == [] then 0 else (if pieces[0] == "" then 1 else 0) + EmptyCount(pieces[1..])
  }

  /**
   * The non-empty pieces, in order (`filter((addr) => addr.length > 0)`);
   * exactly the empty ones are dropped.
   */
  function NonEmpty(pieces: seq<string>): (r: seq<string>)
    ensures IsSubsequence(r, pieces)
    ensures forall k :: 0 <= k < |r| ==> r[k] != ""
    ensures |r| + EmptyCount(pieces) == |pieces|
  {
    if pieces == [] then []
    else
      var rest := NonEmpty(pieces[1..]);
      if pieces[0] == "" then rest
      else
        var r := [pieces[0]] + rest;
        assert r[1..] == rest;
        r
  }

  /** Every element of a subsequence is an element of the whole. */
  lemma {:induction false} SubsequenceMembers<T>(a: seq<T>, b: seq<T>)
    requires IsSubsequence(a, b)
    ensures forall k :: 0 <= k < |a| ==> a[k] in b
    decreases |b|
  {
    if a != [] {
      if a[0] == b[0] && IsSubsequence(a[1..], b[1..]) {
        SubsequenceMembers(a[1..], b[1..]);
        assert forall k :: 1 <= k < |a| ==> a[k] == a[1..][k - 1];
      } else {
        SubsequenceMembers(a, b[1..]);
      }
    }
  }

  /**
   * The whitelist text split into lines, each line trimmed, empty lines
   * dropped: every address is non-empty, trimmed, and a single line.
   */
  function ParseWhitelist(text: string): (r: seq<string>)
    ensures forall k :: 0 <= k < |r| ==> r[k] != "" && IsTrimmedLine(r[k])
  {
    var trimmed := TrimEach(Split(text, '\n'));
    TrimEachLines(Split(text, '\n'));
    NonEmptyKeepsLines(trimmed);
    NonEmpty(trimmed)
  }

  /**
   * Parsing the whitelist keeps every line that is not blank, trimmed and in
   * its original order, and drops only the blank ones: it is the same filter
   * as `filledOptions`, followed by trimming.
   */
  lemma ParseWhitelistKeepsFilledLines(text: string)
    ensures ParseWhitelist(text) == TrimEach(NonBlank(Split(text, '\n')))
  {
    NonEmptyTrimEach(Split(text, '\n'));
  }

  /** Dropping the empty trimmed pieces is trimming the non-blank pieces. */
  lemma {:induction false} NonEmptyTrimEach(pieces: seq<string>)
    ensures NonEmpty(TrimEach(pieces)) == TrimEach(NonBlank(pieces))
  {
    if pieces != [] {
      NonEmptyTrimEach(pieces[1..]);
      assert TrimEach(pieces)[1..] == TrimEach(pieces[1..]);
      if !IsBlank(pieces[0]) {
        assert NonBlank(pieces)[1..] == NonBlank(pieces[1..]);
      }
    }
  }

  /** A trailing newline leaves an empty last line, which is dropped. */
  lemma TrailingNewlineDropped()
    ensures ParseWhitelist("0xa\n") == ["0xa"]
  {
    ParseWhitelistKeepsFilledLines("0xa\n");
    SplitAtTrailingNewline();
    FilledBeforeEmptyLine();
    TrimEachFixed(["0xa"]);
  }

  lemma SplitAtTrailingNewline()
    ensures Split("0xa\n", '\n') == ["0xa", ""]
  {
    SplitJoin(["0xa", ""], '\n');
    assert Join(["0xa", ""], '\n') == "0xa\n";
  }

  lemma FilledBeforeEmptyLine()
    ensures NonBlank(["0xa", ""]) == ["0xa"]
    ensures IsTrimmed("0xa")
  {
    TrimmedIsFixed("0xa");
    assert Trim("") == "";
    assert NonBlank([""]) == [];
  }

  /** A trimmed piece of text holding no newline. */
  predicate IsTrimmedLine(s: string) {
    IsTrimmed(s) && '\n' !in s
  }

  /** Trimming each of a list of lines gives trimmed lines. */
  lemma TrimEachLines(lines: seq<string>)
    requires forall k :: 0 <= k < |lines| ==> '\n' !in lines[k]
    ensures forall k :: 0 <= k < |TrimEach(lines)| ==> IsTrimmedLine(TrimEach(lines)[k])
  {
    forall k | 0 <= k < |lines| ensures IsTrimmedLine(TrimEach(lines)[k]) {
      TrimSpec(lines[k]);
      TrimHasNoNewline(lines[k]);
    }
  }

  /** Dropping the empty pieces keeps every remaining piece a trimmed line. */
  lemma NonEmptyKeepsLines(pieces: seq<string>)
    requires forall k :: 0 <= k < |pieces| ==> IsTrimmedLine(pieces[k])
    ensures forall k :: 0 <= k < |NonEmpty(pieces)| ==> IsTrimmedLine(NonEmpty(pieces)[k])
  {
    SubsequenceMembers(NonEmpty(pieces), pieces);
  }

  /** Trimming keeps a line free of newlines. */
  lemma TrimHasNoNewline(line: string)
    requires '\n' !in line
    ensures '\n' !in Trim(line)
  {
    TrimSpec(line);
    var t := Trim(line);
    var a := |line| - |TrimStart(line)|;
    forall k | 0 <= k < |t| ensures t[k] != '\n' {
      assert t[k] == line[a + k];
    }
  }

  /** The addresses sent with the call: the parsed whitelist, or none for a public market. */
  function WhitelistAddresses(access: AccessType, text: string): (r: seq<string>)
    ensures access == Public ==> r == []
    ensures access == Whitelist ==> r == ParseWhitelist(text)
  {
    if access == Whitelist then ParseWhitelist(text) else []
  }

  /** One address per line, however written, is read back exactly. */
  lemma WhitelistRoundTrip(addresses: seq<string>)
    requires |addresses| >= 1
    requires forall k :: 0 <= k < |addresses| ==> addresses[k] != "" && IsTrimmed(addresses[k]) && '\n' !in addresses[k]
    ensures ParseWhitelist(Join(addresses, '\n')) == addresses
  {
    SplitJoin(addresses, '\n');
    TrimEachFixed(addresses);
    NonEmptyFixed(addresses);
  }

  lemma {:induction false} TrimEachFixed(pieces: seq<string>)
    requires forall k :: 0 <= k < |pieces| ==> IsTrimmed(pieces[k])
    ensures TrimEach(pieces) == pieces
  {
    forall k | 0 <= k < |pieces| ensures TrimEach(pieces)[k] == pieces[k] {
      TrimmedIsFixed(pieces[k]);
    }
  }

  lemma {:induction false} NonEmptyFixed(pieces: seq<string>)
    requires forall k :: 0 <= k < |pieces| ==> pieces[k] != ""
    ensures NonEmpty(pieces) == pieces
  {
    if pieces != [] {
      NonEmptyFixed(pieces[1..]);
      assert [pieces[0]] + pieces[1..] == pieces;
    }
  }

  // ---------------------------------------------------------------------------
  // Submission

  /** The form as `handleSubmit` reads it, with whether a wallet is connected. */
  datatype FormInput = FormInput(
    connected: bool, question: string, options: seq<string>, duration: string,
    access: AccessType, whitelist: string)

  /** The validation failures, in the order they are checked. */
  datatype SubmitError = NoWallet | TooFewOptions | NoQuestion | DurationTooShort | EmptyWhitelist

  function SubmitErrorMessage(e: SubmitError): string {
    match e
    case NoWallet => "Please connect your wallet first"
    case TooFewOptions => "Please provide at least 2 options"
    case NoQuestion => "Please enter a question"
    case DurationTooShort => "Duration must be at least 1 minute"
    case EmptyWhitelist => "Please add at least one address to the whitelist"
  }

  function CheckOrder(e: SubmitError): nat {
    match e
    case NoWallet => 0
    case TooFewOptions => 1
    case NoQuestion => 2
    case DurationTooShort => 3
    case EmptyWhitelist => 4
  }

  /** `durationNum < 1`: false for `NaN`, so an unparsable duration is not caught here. */
  predicate BelowOneMinute(d: JsInt) {
    d.Int? && d.value < 1
  }

  /**
   * The values `handleSubmit` works with: the connection, the question, the
   * filled options, the parsed duration, the access type and the addresses
   * to send (the parsed whitelist, or none for a public market).
   */
  datatype Prepared = Prepared(
    connected: bool, question: string, filled: seq<string>, durationNum: JsInt,
    access: AccessType, addresses: seq<string>)

  /** What `handleSubmit` computes from the form before and while checking it. */
  function Prepare(f: FormInput): Prepared {
    Prepared(f.connected, f.question, NonBlank(f.options), ParseInt(f.duration), f.access,
             WhitelistAddresses(f.access, f.whitelist))
  }

  /** Check `e` fails on the prepared values `p`. */
  predicate Fails(e: SubmitError, p: Prepared) {
    match e
    case NoWallet => !p.connected
    case TooFewOptions => |p.filled| < MinOptions
    case NoQuestion => Trim(p.question) == ""
    case DurationTooShort => BelowOneMinute(p.durationNum)
    case EmptyWhitelist => p.access == Whitelist && p.addresses == []
  }

  /** Every check placed before position `n` in the order passes on `p`. */
  predicate PassesBefore(n: nat, p: Prepared) {
    && (n > 0 ==> !Fails(NoWallet, p))
    && (n > 1 ==> !Fails(TooFewOptions, p))
    && (n > 2 ==> !Fails(NoQuestion, p))
    && (n > 3 ==> !Fails(DurationTooShort, p))
    && (n > 4 ==> !Fails(EmptyWhitelist, p))
  }

  /** `PassesBefore(n, p)` says exactly that no check ordered before `n` fails. */
  lemma PassesBeforeIff(n: nat, p: Prepared)
    ensures PassesBefore(n, p) <==> forall e :: CheckOrder(e) < n ==> !Fails(e, p)
  {
    if PassesBefore(n, p) {
      forall e | CheckOrder(e) < n ensures !Fails(e, p) {
        match e
        case NoWallet =>
        case TooFewOptions =>
        case NoQuestion =>
        case DurationTooShort =>
        case EmptyWhitelist =>
      }
    } else if n > 0 && Fails(NoWallet, p) {
      assert CheckOrder(NoWallet) < n;
    } else if n > 1 && Fails(TooFewOptions, p) {
      assert CheckOrder(TooFewOptions) < n;
    } else if n > 2 && Fails(NoQuestion, p) {
      assert CheckOrder(NoQuestion) < n;
    } else if n > 3 && Fails(DurationTooShort, p) {
      assert CheckOrder(DurationTooShort) < n;
    } else {
      assert CheckOrder(EmptyWhitelist) < n;
    }
  }

  /** The `create_market` call, arguments in the contract's order. */
  function CallFor(p: Prepared, clock: string): MoveCall {
    CreateMarketCall(p.question, p.filled, p.addresses, p.durationNum, p.access == Whitelist, clock)
  }

  /**
   * The validation chain of `handleSubmit`: wallet, options, question,
   * duration, whitelist, each returning its error at once; the call is
   * built only after all of them.
   */
  function Decide(p: Prepared, clock: string): Result<MoveCall, SubmitError> {
    if Fails(NoWallet, p) then Err(NoWallet)
    else if Fails(TooFewOptions, p) then Err(TooFewOptions)
    else if Fails(NoQuestion, p) then Err(NoQuestion)
    else if Fails(DurationTooShort, p) then Err(DurationTooShort)
    else if Fails(EmptyWhitelist, p) then Err(EmptyWhitelist)
    else Ok(CallFor(p, clock))
  }

  /** `handleSubmit` on a form, up to the signing request. */
  function ValidateSubmit(f: FormInput, clock: string): Result<MoveCall, SubmitError> {
    Decide(Prepare(f), clock)
  }

  /**
   * The check reported is one that fails, and every check before it passes;
   * a call is built exactly when no check fails.
   */
  lemma FirstFailureReported(p: Prepared, clock: string)
    ensures var r := Decide(p, clock);
      && (r.Err? ==> Fails(r.error, p) && PassesBefore(CheckOrder(r.error), p))
      && (r.Ok? <==> PassesBefore(5, p))
      && (r.Ok? ==> r.value == CallFor(p, clock))
  {
  }

  /** Conversely, a check that fails after all earlier ones pass is the one reported. */
  lemma RefusedAt(p: Prepared, clock: string, e: SubmitError)
    requires Fails(e, p) && PassesBefore(CheckOrder(e), p)
    ensures Decide(p, clock) == Err(e)
  {
  }

  /**
   * A `create_market` call the contract can accept: at least two non-blank
   * options, a non-blank question, a duration that is `NaN` or at least one
   * minute, and trimmed non-empty addresses, at least one exactly when the
   * whitelist is enabled.
   */
  predicate IsWellFormedCreateCall(call: MoveCall) {
    && call.CreateMarketCall?
    && AreSendableOptions(call.options)
    && Trim(call.question) != ""
    && IsAcceptedDuration(call.durationMinutes)
    && IsSendableWhitelist(call.whitelistEnabled, call.whitelist)
  }

  /** At least two options, none of them blank. */
  predicate AreSendableOptions(options: seq<string>) {
    |options| >= MinOptions && forall k :: 0 <= k < |options| ==> Trim(options[k]) != ""
  }

  /** A duration the `< 1` check lets through: `NaN` or at least one minute. */
  predicate IsAcceptedDuration(d: JsInt) {
    d.NaN? || d.value >= 1
  }

  /** Trimmed non-empty addresses, at least one exactly when the whitelist is enabled. */
  predicate IsSendableWhitelist(enabled: bool, addresses: seq<string>) {
    && (enabled ==> |addresses| >= 1)
    && (!enabled ==> addresses == [])
    && (forall k :: 0 <= k < |addresses| ==> addresses[k] != "" && IsTrimmed(addresses[k]))
  }

  /** Every call the form builds is well formed, and enables the whitelist exactly in whitelist mode. */
  lemma SubmittedCallIsWellFormed(f: FormInput, clock: string)
    requires ValidateSubmit(f, clock).Ok?
    ensures IsWellFormedCreateCall(ValidateSubmit(f, clock).value)
    ensures ValidateSubmit(f, clock).value.whitelistEnabled <==> f.access == Whitelist
  {
    var p := Prepare(f);
    FirstFailureReported(p, clock);
    CallFromPassingChecks(p, clock);
    FilledOptionsSendable(f.options);
    WhitelistSent(f.access, f.whitelist);
  }

  /** The call built from values that pass every check. */
  lemma CallFromPassingChecks(p: Prepared, clock: string)
    requires PassesBefore(5, p)
    requires AreSendableOptions(p.filled)
    requires IsSendableWhitelist(p.access == Whitelist, p.addresses)
    ensures IsWellFormedCreateCall(CallFor(p, clock))
    ensures CallFor(p, clock).whitelistEnabled <==> p.access == Whitelist
  {
  }

  lemma FilledOptionsSendable(options: seq<string>)
    requires |NonBlank(options)| >= MinOptions
    ensures AreSendableOptions(NonBlank(options))
  {
  }

  lemma WhitelistSent(access: AccessType, text: string)
    requires access == Whitelist ==> ParseWhitelist(text) != []
    ensures IsSendableWhitelist(access == Whitelist, WhitelistAddresses(access, text))
  {
  }

  /** A form with a single non-blank option is refused for too few options once a wallet is connected. */
  lemma OneFilledOptionRefused(f: FormInput, clock: string)
    requires f.connected && BlankCount(f.options) + 1 == |f.options|
    ensures ValidateSubmit(f, clock) == Err(TooFewOptions)
    ensures SubmitErrorMessage(ValidateSubmit(f, clock).error) == "Please provide at least 2 options"
  {
    RefusedAt(Prepare(f), clock, TooFewOptions);
  }

  /** The default duration `"60"` reads as 60 minutes and passes the duration check. */
  lemma DefaultDurationAccepted()
    ensures ParseInt("60") == Int(60)
    ensures !BelowOneMinute(ParseInt("60"))
  {
    assert Decimal(60) == "60" by {
      assert Decimal(6) == "6";
    }
    ParseIntDecimal(60);
  }

  /**
   * A duration that parses to `NaN` (text with no leading digits, such as
   * `"abc"`) is not refused by the `< 1` check, and the call is built with
   * it. Whether the SDK then encodes it as a `u64` is not modelled; if that
   * throws, the page takes the `CreateFailed` path.
   */
  lemma NonNumericDurationPasses(f: FormInput, clock: string)
    requires ParseInt(f.duration) == NaN
    requires f.connected && |NonBlank(f.options)| >= MinOptions && Trim(f.question) != ""
    requires f.access == Public
    ensures ValidateSubmit(f, clock).Ok? && ValidateSubmit(f, clock).value.CreateMarketCall?
    ensures ValidateSubmit(f, clock).value.durationMinutes == NaN
  {
    var p := Prepare(f);
    assert PassesBefore(5, p);
    FirstFailureReported(p, clock);
  }

  /** Text that starts with neither space, sign nor digit parses to `NaN`. */
  lemma NoLeadingDigitIsNaN(s: string)
    requires s != [] && !IsJsSpace(s[0]) && s[0] != '-' && s[0] != '+' && !IsDecimalDigit(s[0])
    ensures ParseInt(s) == NaN
  {
    assert TrimStart(s) == s;
    assert Unsigned(s) == s;
    assert !HasHexPrefix(s);
    assert Unprefixed(s) == s;
  }

  /** A duration typed as `"abc"` parses to `NaN`. */
  lemma LettersDurationIsNaN()
    ensures ParseInt("abc") == NaN
  {
    assert "abc"[0] == 'a';
    NoLeadingDigitIsNaN("abc");
  }

  // ---------------------------------------------------------------------------
  // The created market

  /** A change that creates an object whose type names `market::VotingMarket`. */
  predicate IsMarketCreation(c: ObjectChange) {
    c.changeType == "created" && Includes(c.objectType, "::market::VotingMarket")
  }

  /** The position of the first market creation among the changes, if any. */
  function FirstMarketCreation(changes: seq<ObjectChange>): (k: Option<nat>)
    ensures k.Some? ==>
      && k.value < |changes| && IsMarketCreation(changes[k.value])
      && forall j :: 0 <= j < k.value ==> !IsMarketCreation(changes[j])
    ensures k.None? ==> forall j :: 0 <= j < |changes| ==> !IsMarketCreation(changes[j])
  {
    if changes == [] then None
    else if IsMarketCreation(changes[0]) then Some(0)
    else
      match FirstMarketCreation(changes[1..])
      case None => None
      case Some(k) => Some(k + 1)
  }

  /** The new market's ID: that of the first market creation, or `""` when there is none. */
  function CreatedMarketId(objectChanges: Option<seq<ObjectChange>>): string {
    if objectChanges.None? then ""
    else
      match FirstMarketCreation(objectChanges.value)
      case None => ""
      case Some(k) => objectChanges.value[k].objectId
  }

  /** The scan of `objectChanges`, stopping at the first market creation. */
  method FindCreatedMarket(objectChanges: Option<seq<ObjectChange>>) returns (marketId: string)
    ensures marketId == CreatedMarketId(objectChanges)
    ensures objectChanges.Some? && marketId != "" ==>
      exists k :: 0 <= k < |objectChanges.value| && IsMarketCreation(objectChanges.value[k]) &&
                  marketId == objectChanges.value[k].objectId
  {
    marketId := "";
    if objectChanges.Some? {
      var changes := objectChanges.value;
      var i := 0;
      while i < |changes|
        invariant 0 <= i <= |changes|
        invariant forall j :: 0 <= j < i ==> !IsMarketCreation(changes[j])
        invariant marketId == ""
      {
        if IsMarketCreation(changes[i]) {
          marketId := changes[i].objectId;
          assert FirstMarketCreation(changes) == Some(i);
          return;
        }
        i := i + 1;
      }
    }
  }

  /** What reading the transaction back gave: a failure, or its `objectChanges` (possibly absent). */
  datatype TransactionLookup = LookupFailed | Looked(objectChanges: Option<seq<ObjectChange>>)

  // ---------------------------------------------------------------------------
  // The form component

  /** The create-market form's state. */
  class CreateMarketForm {
    var question: string
    var options: seq<string>
    var duration: string
    var accessType: AccessType
    var whitelist: string
    var isCreating: bool
    var showMarketId: bool
    var createdMarketId: string

    /** The option list holds between two and ten entries. */
    ghost predicate Valid()
      reads this
    {
      MinOptions <= |options| <= MaxOptions
    }

    /** The form's fields at their initial (and reset) values. */
    ghost predicate IsBlankForm()
      reads this
    {
      question == "" && options == ["", ""] && duration == "60" && accessType == Public && whitelist == ""
    }

    constructor ()
      ensures Valid() && IsBlankForm()
      ensures !isCreating && !showMarketId && createdMarketId == ""
    {
      question := "";
      options := ["", ""];
      duration := "60";
      accessType := Public;
      whitelist := "";
      isCreating := false;
      showMarketId := false;
      createdMarketId := "";
    }

    method SetQuestion(value: string)
      modifies this`question
      ensures question == value
    {
      question := value;
    }

    method SetDuration(value: string)
      modifies this`duration
      ensures duration == value
    {
      duration := value;
    }

    method SetAccessType(value: AccessType)
      modifies this`accessType
      ensures accessType == value
    {
      accessType := value;
    }

    method SetWhitelist(value: string)
      modifies this`whitelist
      ensures whitelist == value
    {
      whitelist := value;
    }

    method AddOption()
      requires Valid()
      modifies this`options
      ensures Valid()
      ensures options == WithOptionAdded(old(options))
    {
      if |options| < MaxOptions {
        options := options + [""];
      }
    }

    method RemoveOption(index: int)
      requires Valid()
      modifies this`options
      ensures Valid()
      ensures options == WithOptionRemoved(old(options), index)
    {
      if |options| > MinOptions {
        options := DropIndex(options, index);
      }
    }

    method UpdateOption(index: nat, value: string)
      requires Valid() && index < |options|
      modifies this`options
      ensures Valid()
      ensures options == WithOptionUpdated(old(options), index, value)
    {
      var newOptions := options;
      newOptions := newOptions[index := value];
      options := newOptions;
    }

    /** The form's current contents, as `handleSubmit` reads them. */
    function Input(connected: bool): FormInput
      reads this
    {
      FormInput(connected, question, options, duration, accessType, whitelist)
    }

    /**
     * `handleSubmit` up to the signing request: each failed check returns its
     * error at once; when all pass, the form enters the creating state and the
     * `create_market` call is returned.
     */
    method Submit(connected: bool, clock: string) returns (outcome: Result<MoveCall, SubmitError>)
      modifies this`isCreating
      ensures outcome == ValidateSubmit(old(Input(connected)), clock)
      ensures isCreating == (old(isCreating) || outcome.Ok?)
    {
      ghost var prepared := Prepare(Input(connected));
      if !connected {
        RefusedAt(prepared, clock, NoWallet);
        return Err(NoWallet);
      }
      var filledOptions := NonBlank(options);
      if |filledOptions| < MinOptions {
        RefusedAt(prepared, clock, TooFewOptions);
        return Err(TooFewOptions);
      }
      if Trim(question) == "" {
        RefusedAt(prepared, clock, NoQuestion);
        return Err(NoQuestion);
      }
      var durationNum := ParseInt(duration);
      if BelowOneMinute(durationNum) {
        RefusedAt(prepared, clock, DurationTooShort);
        return Err(DurationTooShort);
      }
      var whitelistAddresses: seq<string> := [];
      if accessType == Whitelist {
        whitelistAddresses := ParseWhitelist(whitelist);
        if whitelistAddresses == [] {
          RefusedAt(prepared, clock, EmptyWhitelist);
          return Err(EmptyWhitelist);
        }
      }
      FirstFailureReported(prepared, clock);
      isCreating := true;
      outcome := Ok(CreateMarketCall(question, filledOptions, whitelistAddresses, durationNum,
                                     accessType == Whitelist, clock));
    }

    /** The success notices: ID found, ID not found, transaction not read back. */
    static const CreatedMessage := "Market created successfully!"
    static const CreatedWithoutIdMessage := "Market created but couldn't get ID. Check Sui Explorer with your wallet address."
    static const CreatedUnreadMessage := "Market created! Check Sui Explorer with your wallet address for the Market ID."

    /**
     * The transaction succeeded. A found market ID is shown and the form is
     * reset; without an ID, or when the transaction could not be read back,
     * the user is told to look the market up and the form is kept.
     */
    method CreateSucceeded(lookup: TransactionLookup) returns (notice: Notice)
      requires Valid()
      modifies this
      ensures Valid() && !isCreating
      ensures lookup.LookupFailed? ==>
        && notice == Notice(CreatedUnreadMessage, Success)
        && old(Input(true)) == Input(true)
        && showMarketId == old(showMarketId) && createdMarketId == old(createdMarketId)
      ensures lookup.Looked? && CreatedMarketId(lookup.objectChanges) != "" ==>
        && notice == Notice(CreatedMessage, Success)
        && createdMarketId == CreatedMarketId(lookup.objectChanges) && showMarketId
        && IsBlankForm()
      ensures lookup.Looked? && CreatedMarketId(lookup.objectChanges) == "" ==>
        && notice == Notice(CreatedWithoutIdMessage, Success)
        && old(Input(true)) == Input(true)
        && showMarketId == old(showMarketId) && createdMarketId == old(createdMarketId)
    {
      if lookup.LookupFailed? {
        notice := Notice(CreatedUnreadMessage, Success);
      } else {
        var marketId := FindCreatedMarket(lookup.objectChanges);
        if marketId != "" {
          createdMarketId := marketId;
          showMarketId := true;
          notice := Notice(CreatedMessage, Success);
          question := "";
          options := ["", ""];
          duration := "60";
          accessType := Public;
          whitelist := "";
        } else {
          notice := Notice(CreatedWithoutIdMessage, Success);
        }
      }
      isCreating := false;
    }

    /** Building, signing or submitting failed: the form is kept and creation ends. */
    method CreateFailed() returns (notice: Notice)
      modifies this`isCreating
      ensures notice == Notice("Failed to create market. Please try again.", Error)
      ensures !isCreating
    {
      notice := Notice("Failed to create market. Please try again.", Error);
      isCreating := false;
    }

    /** "View Market" in the success dialog: close it and open the created market. */
    method ViewCreatedMarket() returns (navigateTo: string)
      modifies this`showMarketId
      ensures navigateTo == createdMarketId && !showMarketId
    {
      showMarketId := false;
      navigateTo := createdMarketId;
    }
  }
}
