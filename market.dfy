/**
 * The market page: what it derives from a fetched `VotingMarket` (ended or
 * not, vote total, leading options, countdown, voting eligibility) and the
 * component state that fetching, voting, account changes and the whitelist
 * manager update.
 */
module Market {
  import opened Wrappers
  import opened JsText
  import opened Chain
  import opened MoveErrors

  // ---------------------------------------------------------------------------
  // Eligibility

  /** A list field as the page reads it: a missing or non-array list is empty. */
  function ListOrEmpty(l: Option<seq<string>>): seq<string> {
    if l.Some? then l.value else []
  }

  /**
   * `checkIfUserVoted`: false when the market, its voters list or the address
   * is missing (the empty address counts as missing); otherwise membership
   * of the address in `voters`.
   */
  function CheckIfUserVoted(data: Option<MarketFields>, userAddress: string): (r: bool)
    ensures data.None? || data.value.voters.None? || userAddress == "" ==> !r
    ensures data.Some? && data.value.voters.Some? && userAddress != "" ==>
      (r <==> userAddress in data.value.voters.value)
  {
    if data.None? || data.value.voters.None? || userAddress == "" then false
    else userAddress in ListOrEmpty(data.value.voters)
  }

  /** What a fetch sets `hasUserVoted` and `isWhitelisted` to. */
  datatype VoterStatus = VoterStatus(hasVoted: bool, whitelisted: bool)

  /**
   * The status `fetchMarket` computes for the connected account (`None` when
   * no wallet is connected). With no usable account the user has not voted
   * and is whitelisted; a public market whitelists everyone; otherwise the
   * account must be among the voters or the initial voters.
   */
  function StatusFor(data: MarketFields, account: Option<string>): (s: VoterStatus)
    ensures account.None? || account.value == "" ==> s == VoterStatus(false, true)
    ensures account.Some? && account.value != "" ==>
      s.hasVoted == (account.value in ListOrEmpty(data.voters))
    ensures !data.whitelistEnabled ==> s.whitelisted
    ensures data.whitelistEnabled && account.Some? && account.value != "" ==>
      (s.whitelisted <==> account.value in ListOrEmpty(data.voters) || account.value in ListOrEmpty(data.initialVoters))
    ensures s.hasVoted ==> s.whitelisted
  {
    if account.Some? && account.value != "" then
      var address := account.value;
      var voted := CheckIfUserVoted(Some(data), address);
      if data.whitelistEnabled then
        VoterStatus(voted, address in ListOrEmpty(data.voters) || address in ListOrEmpty(data.initialVoters))
      else
        VoterStatus(voted, true)
    else
      VoterStatus(false, true)
  }

  /** `isEnded`: the current time is strictly past the deadline. */
  predicate IsEnded(now: int, deadline: int) {
    now > deadline
  }

  /** `canVote`: a connected account, an open market, no earlier vote, and whitelisted. */
  predicate CanVote(account: Option<string>, ended: bool, hasVoted: bool, whitelisted: bool) {
    account.Some? && !ended && !hasVoted && whitelisted
  }

  /** An account recorded among the voters can never vote again, whatever the time. */
  lemma VoterCannotVoteAgain(data: MarketFields, address: string, now: int)
    requires address != "" && address in ListOrEmpty(data.voters)
    ensures var s := StatusFor(data, Some(address));
      !CanVote(Some(address), IsEnded(now, data.deadline), s.hasVoted, s.whitelisted)
  {
  }

  /** On a whitelist market an account on neither list cannot vote. */
  lemma OutsiderCannotVote(data: MarketFields, address: string, now: int)
    requires data.whitelistEnabled && address != ""
    requires address !in ListOrEmpty(data.voters) && address !in ListOrEmpty(data.initialVoters)
    ensures var s := StatusFor(data, Some(address));
      !CanVote(Some(address), IsEnded(now, data.deadline), s.hasVoted, s.whitelisted)
  {
  }

  /**
   * Eligibility as a whole: a connected account can vote exactly when the
   * deadline has not passed, it has not voted yet, and, on a whitelist market,
   * it is among the initial voters.
   */
  lemma EligibilityIff(data: MarketFields, address: string, now: int)
    requires address != ""
    ensures var s := StatusFor(data, Some(address));
      CanVote(Some(address), IsEnded(now, data.deadline), s.hasVoted, s.whitelisted) <==>
        && now <= data.deadline
        && address !in ListOrEmpty(data.voters)
        && (data.whitelistEnabled ==> address in ListOrEmpty(data.initialVoters))
  {
  }

  /** On a public market any account that has not voted can vote until the deadline passes. */
  lemma PublicMarketOpenToNewVoters(data: MarketFields, address: string, now: int)
    requires !data.whitelistEnabled && address != ""
    requires address !in ListOrEmpty(data.voters)
    ensures var s := StatusFor(data, Some(address));
      CanVote(Some(address), IsEnded(now, data.deadline), s.hasVoted, s.whitelisted) <==> now <= data.deadline
  {
  }

  /**
   * `isCreator`: the connected address equals the market's `creator`. Both
   * sides may be `undefined`, and then they compare equal.
   */
  predicate IsCreator(account: Option<string>, creator: Option<string>) {
    account == creator
  }

  /**
   * A connected account is the creator exactly when its address is the
   * recorded creator; with no wallet and no `creator` field the page also
   * counts the viewer as the creator.
   */
  lemma CreatorCases(address: string, creator: string)
    ensures IsCreator(Some(address), Some(creator)) <==> address == creator
    ensures !IsCreator(None, Some(creator)) && !IsCreator(Some(address), None)
    ensures IsCreator(None, None)
  {
  }

  // ---------------------------------------------------------------------------
  // Tally

  /** The `reduce` that adds up the counts, left to right from 0. */
  function Sum(votes: seq<nat>): nat {
    if votes == [] then 0 else Sum(votes[..|votes| - 1]) + votes[|votes| - 1]
  }

  /** `totalVotes`: the sum of the counts, 0 when the market has no `votes` field. */
  function TotalVotes(votes: Option<seq<nat>>): (total: nat)
    ensures votes.None? ==> total == 0
    ensures votes.Some? ==>
      && (total == 0 <==> forall i :: 0 <= i < |votes.value| ==> votes.value[i] == 0)
      && (forall i :: 0 <= i < |votes.value| ==> votes.value[i] <= total)
  {
    if votes.Some? then
      SumBounds(votes.value);
      Sum(votes.value)
    else 0
  }

  /** The total is 0 exactly when every count is 0, and no count exceeds it. */
  lemma {:induction false} SumBounds(votes: seq<nat>)
    ensures Sum(votes) == 0 <==> forall i :: 0 <= i < |votes| ==> votes[i] == 0
    ensures forall i :: 0 <= i < |votes| ==> votes[i] <= Sum(votes)
  {
    if votes != [] {
      var front := votes[..|votes| - 1];
      SumBounds(front);
      assert forall i :: 0 <= i < |front| ==> front[i] == votes[i];
    }
  }

  /** `Math.max` over the counts. */
  function MaxVote(votes: seq<nat>): (m: nat)
    requires votes != []
    ensures m in votes
    ensures forall i :: 0 <= i < |votes| ==> votes[i] <= m
  {
    if |votes| == 1 then votes[0]
    else
      var rest := MaxVote(votes[1..]);
      assert forall i :: 1 <= i < |votes| ==> votes[i] == votes[1..][i - 1];
      if votes[0] >= rest then votes[0] else rest
  }

  /** The count shown for option `index`: `votes[index] || 0`. */
  function VoteCount(votes: seq<nat>, index: nat): nat {
    if index < |votes| then votes[index] else 0
  }

  /** `isLeading` for option `index`: its count is the maximum count and is positive. */
  predicate IsLeading(votes: seq<nat>, index: nat) {
    votes != [] && VoteCount(votes, index) == MaxVote(votes) && VoteCount(votes, index) > 0
  }

  /**
   * An option leads exactly when it has a vote and no option has more: ties
   * lead together, and an all-zero tally has no leader.
   */
  lemma LeadingIff(votes: seq<nat>, index: nat)
    ensures IsLeading(votes, index) <==>
      index < |votes| && votes[index] > 0 && forall j :: 0 <= j < |votes| ==> votes[j] <= votes[index]
  {
    if index < |votes| && votes[index] > 0 && forall j :: 0 <= j < |votes| ==> votes[j] <= votes[index] {
      var m := MaxVote(votes);
      var k :| 0 <= k < |votes| && votes[k] == m;
      assert votes[k] <= votes[index];
    }
  }

  /** With no votes cast, no option is leading. */
  lemma NoLeaderWithoutVotes(votes: seq<nat>, index: nat)
    requires Sum(votes) == 0
    ensures !IsLeading(votes, index)
  {
    SumBounds(votes);
  }

  /** Once any vote is cast, some option is leading. */
  lemma SomeLeaderWithVotes(votes: seq<nat>)
    requires Sum(votes) > 0
    ensures exists i :: 0 <= i < |votes| && IsLeading(votes, i)
  {
    SumBounds(votes);
    var m := MaxVote(votes);
    var k :| 0 <= k < |votes| && votes[k] == m;
    var j :| 0 <= j < |votes| && votes[j] != 0;
    assert votes[j] <= m;
    assert IsLeading(votes, k);
  }

  /** Options `["A", "B"]` with counts `[3, 1]`: four votes, option 0 leads and option 1 does not. */
  lemma ScenarioThreeToOne()
    ensures TotalVotes(Some([3, 1])) == 4
    ensures IsLeading([3, 1], 0) && !IsLeading([3, 1], 1)
  {
    assert [3, 1][..1] == [3];
    assert [3][..0] == [];
    assert Sum([3]) == 3;
    LeadingIff([3, 1], 0);
    LeadingIff([3, 1], 1);
  }

  // ---------------------------------------------------------------------------
  // Countdown

  const MinuteMs: nat := 60000
  const HourMs: nat := 3600000
  const DayMs: nat := 86400000

  /** The pieces `formatTime` prints. */
  datatype Countdown = Ended | DaysHours(days: nat, hours: nat) | HoursMinutes(hours: nat, minutes: nat) | Minutes(minutes: nat)

  /**
   * The countdown to `deadline` at time `now` (both in milliseconds): over
   * once nothing remains, else the whole days and hours left if at least a
   * day remains, else the whole hours and minutes if at least an hour
   * remains, else the whole minutes.
   */
  function CountdownTo(deadline: int, now: int): (c: Countdown)
    ensures c == Ended <==> deadline - now <= 0
    ensures c.DaysHours? ==>
      && c.days > 0 && c.hours < 24
      && c.days * DayMs + c.hours * HourMs <= deadline - now < c.days * DayMs + (c.hours + 1) * HourMs
    ensures c.HoursMinutes? ==>
      && deadline - now < DayMs && 0 < c.hours < 24 && c.minutes < 60
      && c.hours * HourMs + c.minutes * MinuteMs <= deadline - now < c.hours * HourMs + (c.minutes + 1) * MinuteMs
    ensures c.Minutes? ==>
      && c.minutes < 60
      && c.minutes * MinuteMs <= deadline - now < (c.minutes + 1) * MinuteMs
  {
    var remaining := deadline - now;
    if remaining <= 0 then Ended
    else
      var days := remaining / DayMs;
      var hours := (remaining % DayMs) / HourMs;
      var minutes := (remaining % HourMs) / MinuteMs;
      assert remaining == days * DayMs + remaining % DayMs;
      assert remaining % DayMs == hours * HourMs + (remaining % DayMs) % HourMs;
      if days > 0 then DaysHours(days, hours)
      else
        assert remaining % DayMs == remaining;
        assert remaining % HourMs == minutes * MinuteMs + (remaining % HourMs) % MinuteMs;
        if hours > 0 then HoursMinutes(hours, minutes)
        else
          assert remaining % HourMs == remaining;
          Minutes(minutes)
  }

  /** `formatTime`: `"Ended"`, or the countdown as `"Dd Hh"`, `"Hh Mm"` or `"Mm"`. */
  function FormatTime(deadline: int, now: int): (s: string)
    ensures s == "Ended" <==> deadline - now <= 0
  {
    match CountdownTo(deadline, now)
    case Ended => "Ended"
    case DaysHours(d, h) => var s := Decimal(d) + "d " + Decimal(h) + "h"; assert s[|s| - 1] == 'h'; s
    case HoursMinutes(h, m) => var s := Decimal(h) + "h " + Decimal(m) + "m"; assert s[|s| - 1] == 'm'; s
    case Minutes(m) => var s := Decimal(m) + "m"; assert s[|s| - 1] == 'm'; s
  }

  /**
   * At the deadline itself the countdown already reads "Ended" while the
   * market is not yet ended (`isEnded` is strict), so voting is still offered.
   */
  lemma EndedAtDeadlineDisagreement(deadline: int, account: string)
    ensures FormatTime(deadline, deadline) == "Ended"
    ensures !IsEnded(deadline, deadline)
    ensures CanVote(Some(account), IsEnded(deadline, deadline), false, true)
  {
  }

  /** One and a half days before the deadline the countdown reads `"1d 12h"`. */
  lemma FormatTimeExample(now: int)
    ensures FormatTime(now + DayMs + 12 * HourMs, now) == "1d 12h"
  {
    assert CountdownTo(now + DayMs + 12 * HourMs, now) == DaysHours(1, 12);
    assert Decimal(1) == "1";
    assert Decimal(12) == "12" by {
      assert Decimal(1) == "1";
    }
  }

  // ---------------------------------------------------------------------------
  // Page state

  /** What starting a vote or a whitelist addition does: refuse with a notice, or submit a call. */
  datatype Submission = Refused(notice: Notice) | Submitted(call: MoveCall)

  /** The market page component's state. */
  class MarketPage {
    const id: string
    var marketData: Option<MarketFields>
    var isLoading: bool
    var votingFor: Option<nat>
    var hasUserVoted: bool
    var isWhitelisted: bool
    var newAddress: string
    var isAddingAddress: bool
    /** The account seen by the previous run of the account-change effect; `None` is `undefined`. */
    var previousAccount: Option<string>

    /** The state of the first render. */
    constructor (id: string)
      ensures this.id == id
      ensures marketData.None? && isLoading && votingFor.None?
      ensures !hasUserVoted && isWhitelisted
      ensures newAddress == "" && !isAddingAddress && previousAccount.None?
    {
      this.id := id;
      marketData := None;
      isLoading := true;
      votingFor := None;
      hasUserVoted := false;
      isWhitelisted := true;
      newAddress := "";
      isAddingAddress := false;
      previousAccount := None;
    }

    /**
     * A vote button is enabled: `canVote` holds for the current state at
     * time `now` and no vote is pending.
     */
    predicate VoteButtonEnabled(account: Option<string>, now: int)
      reads this
      requires marketData.Some?
    {
      CanVote(account, IsEnded(now, marketData.value.deadline), hasUserVoted, isWhitelisted) && votingFor.None?
    }

    /**
     * Pressing an enabled vote button always reaches the vote call: the
     * already-voted guard of `handleVote` cannot fire, because the button is
     * only enabled for a connected account that has not voted, before the
     * deadline.
     */
    lemma EnabledVoteButtonSubmits(account: Option<string>, now: int)
      requires marketData.Some? && VoteButtonEnabled(account, now)
      ensures !hasUserVoted && votingFor.None?
      ensures account.Some? && now <= marketData.value.deadline
    {
    }

    /**
     * `fetchMarket`: an ID that fails the format check only ends loading. A
     * fetched Move object replaces the market data and recomputes the voter
     * status for `account`. Anything else (no data, another kind of object,
     * a failed request) keeps the last snapshot. Loading ends in every case.
     */
    method FetchMarket(isValidObjectId: string -> bool, account: Option<string>, response: GetObjectResult)
      modifies this
      ensures !isLoading
      ensures var fields := FetchedFields(response);
        if isValidObjectId(id) && fields.Some? then
          marketData == fields &&
          VoterStatus(hasUserVoted, isWhitelisted) == StatusFor(fields.value, account)
        else
          marketData == old(marketData) && hasUserVoted == old(hasUserVoted) && isWhitelisted == old(isWhitelisted)
      ensures votingFor == old(votingFor) && newAddress == old(newAddress)
      ensures isAddingAddress == old(isAddingAddress) && previousAccount == old(previousAccount)
    {
      if !isValidObjectId(id) {
        isLoading := false;
        return;
      }
      var fields := FetchedFields(response);
      if fields.Some? {
        marketData := fields;
        var status := StatusFor(fields.value, account);
        hasUserVoted := status.hasVoted;
        isWhitelisted := status.whitelisted;
      }
      isLoading := false;
    }

    /**
     * The account-change effect. When an earlier run recorded an address and
     * the account now differs, it shows the loading state, clears the voter
     * status and asks for a fetch. It then records the current account.
     */
    method OnAccountChange(current: Option<string>) returns (refetch: bool)
      modifies this
      ensures refetch == AccountChanged(old(previousAccount), current)
      ensures refetch ==> isLoading && !hasUserVoted && isWhitelisted
      ensures !refetch ==> isLoading == old(isLoading) && hasUserVoted == old(hasUserVoted) &&
                           isWhitelisted == old(isWhitelisted)
      ensures previousAccount == current
      ensures marketData == old(marketData) && votingFor == old(votingFor)
      ensures newAddress == old(newAddress) && isAddingAddress == old(isAddingAddress)
    {
      refetch := AccountChanged(previousAccount, current);
      if refetch {
        isLoading := true;
        hasUserVoted := false;
        isWhitelisted := true;
      }
      previousAccount := current;
    }

    /**
     * `handleVote`: after a recorded vote it only notifies; otherwise it marks
     * the option as being voted for and submits the vote call.
     */
    method BeginVote(index: nat) returns (s: Submission)
      modifies this
      ensures old(hasUserVoted) ==> s == Refused(Notice("You have already voted in this market", Error)) &&
                                    votingFor == old(votingFor)
      ensures !old(hasUserVoted) ==> s == Submitted(VoteCall(id, index, SystemClock)) && votingFor == Some(index)
      ensures marketData == old(marketData) && isLoading == old(isLoading)
      ensures hasUserVoted == old(hasUserVoted) && isWhitelisted == old(isWhitelisted)
      ensures newAddress == old(newAddress) && isAddingAddress == old(isAddingAddress)
      ensures previousAccount == old(previousAccount)
    {
      if hasUserVoted {
        return Refused(Notice("You have already voted in this market", Error));
      }
      votingFor := Some(index);
      s := Submitted(VoteCall(id, index, SystemClock));
    }

    /**
     * The vote succeeded. If waiting for the transaction worked the page says
     * so and fetches again; if waiting failed it says the vote is confirmed.
     * Either way the user has voted and no vote is pending.
     */
    method VoteSucceeded(waited: bool) returns (notice: Notice, refetch: bool)
      modifies this
      ensures notice == if waited then Notice("Vote recorded successfully", Success)
                        else Notice("Vote confirmed", Success)
      ensures refetch == waited
      ensures hasUserVoted && votingFor.None?
      ensures marketData == old(marketData) && isLoading == old(isLoading) && isWhitelisted == old(isWhitelisted)
      ensures newAddress == old(newAddress) && isAddingAddress == old(isAddingAddress)
      ensures previousAccount == old(previousAccount)
    {
      notice := if waited then Notice("Vote recorded successfully", Success) else Notice("Vote confirmed", Success);
      refetch := waited;
      hasUserVoted := true;
      votingFor := None;
    }

    /** The vote failed: the translated error is shown and no vote is pending. */
    method VoteFailed(e: ErrorPayload) returns (notice: Notice)
      modifies this
      ensures notice == Notice(ParseMoveError(e), Error)
      ensures votingFor.None?
      ensures marketData == old(marketData) && isLoading == old(isLoading)
      ensures hasUserVoted == old(hasUserVoted) && isWhitelisted == old(isWhitelisted)
      ensures newAddress == old(newAddress) && isAddingAddress == old(isAddingAddress)
      ensures previousAccount == old(previousAccount)
    {
      notice := Notice(ParseMoveError(e), Error);
      votingFor := None;
    }

    /** Typing in the whitelist manager's address field. */
    method SetNewAddress(value: string)
      modifies this`newAddress
      ensures newAddress == value
    {
      newAddress := value;
    }

    /**
     * `handleAddToWhitelist`: a blank or malformed trimmed address is refused
     * with a notice and nothing else happens; otherwise the page marks the
     * addition in progress and submits the call with the trimmed address.
     */
    method BeginAddToWhitelist(isValidObjectId: string -> bool) returns (s: Submission)
      modifies this`isAddingAddress
      ensures var address := Trim(newAddress);
        if address == "" || !isValidObjectId(address) then
          s == Refused(Notice("Please enter a valid Sui address", Error)) && isAddingAddress == old(isAddingAddress)
        else
          s == Submitted(AddToWhitelistCall(id, [address], SystemClock)) && isAddingAddress
    {
      var address := Trim(newAddress);
      if address == "" || !isValidObjectId(address) {
        return Refused(Notice("Please enter a valid Sui address", Error));
      }
      isAddingAddress := true;
      s := Submitted(AddToWhitelistCall(id, [address], SystemClock));
    }

    /** The addition succeeded: notify, clear the field, fetch again, and end the addition. */
    method AddToWhitelistSucceeded() returns (notice: Notice, refetch: bool)
      modifies this`newAddress, this`isAddingAddress
      ensures notice == Notice("Address added to whitelist", Success) && refetch
      ensures newAddress == "" && !isAddingAddress
    {
      notice := Notice("Address added to whitelist", Success);
      newAddress := "";
      refetch := true;
      isAddingAddress := false;
    }

    /** The addition failed: a cancellation is reported as such, anything else generically. */
    method AddToWhitelistFailed(e: ErrorPayload) returns (notice: Notice)
      modifies this`isAddingAddress
      ensures notice == Notice(WhitelistFailureMessage(e), Error)
      ensures !isAddingAddress
    {
      notice := Notice(WhitelistFailureMessage(e), Error);
      isAddingAddress := false;
    }
  }

  /** The fields `fetchMarket` keeps: those of a returned object whose content is a Move object. */
  function FetchedFields(response: GetObjectResult): (f: Option<MarketFields>)
    ensures f.Some? <==> response.Returned? && response.data.Some? && response.data.value.content.Some? &&
                         response.data.value.content.value.dataType == "moveObject"
    ensures f.Some? ==> f.value == response.data.value.content.value.fields
  {
    if response.Returned? && response.data.Some? && response.data.value.content.Some? &&
       response.data.value.content.value.dataType == "moveObject"
    then Some(response.data.value.content.value.fields)
    else None
  }

  /**
   * The account-change effect resets only when an earlier run recorded an
   * address that differs from the current one.
   */
  predicate AccountChanged(previous: Option<string>, current: Option<string>) {
    previous.Some? && previous != current
  }

  /**
   * A missing account is recorded as `undefined`, the same as "first render":
   * connecting a wallet after the page opened disconnected neither clears the
   * voter status nor fetches again, while disconnecting or switching does.
   */
  lemma AccountChangeCases(a: string, b: string)
    ensures !AccountChanged(None, Some(a))
    ensures AccountChanged(Some(a), None)
    ensures AccountChanged(Some(a), Some(b)) <==> a != b
  {
  }
}
