/**
 * The "Find a Market" page: the entered ID is trimmed and checked for
 * emptiness and format before the node is asked for the object, and the
 * object must be a Move object whose type starts with the Polysui
 * `VotingMarket` type before the page navigates to it.
 */
module MarketSearch {
  import opened Wrappers
  import opened JsText
  import opened Chain

  /** The refusals, in the order they are checked. */
  datatype SearchError = EmptyId | BadFormat | NotFound | NotMoveObject | NotPolysuiMarket

  function SearchErrorMessage(e: SearchError): string {
    match e
    case EmptyId => "Please enter a Market ID"
    case BadFormat => "Invalid Market ID format. Please enter a valid Sui Object ID starting with 0x"
    case NotFound => "Market not found. Please check the Market ID and try again."
    case NotMoveObject => "This object is not a valid market. Please enter a correct Market ID."
    case NotPolysuiMarket => "This object exists but is not a Polysui market. Please enter a valid Market ID."
  }

  /** The type every market object's type starts with. */
  function ExpectedType(packageId: string): string {
    packageId + "::market::VotingMarket"
  }

  /** The object is a Move object whose type names the package's `VotingMarket`. */
  predicate IsPolysuiMarket(response: GetObjectResult, packageId: string) {
    && response.Returned?
    && response.data.Some?
    && response.data.value.content.Some?
    && response.data.value.content.value.dataType == "moveObject"
    && response.data.value.objectType.Some?
    && StartsWith(response.data.value.objectType.value, ExpectedType(packageId))
  }

  /**
   * The checks on the fetched object: a failed request or a missing object is
   * "not found"; otherwise the content kind is checked before the type.
   * `None` means the object passes.
   */
  function CheckObject(response: GetObjectResult, packageId: string): (r: Option<SearchError>)
    ensures r.None? <==> IsPolysuiMarket(response, packageId)
    ensures r == Some(NotFound) <==> response.Threw? || response.data.None?
    ensures r == Some(NotMoveObject) <==>
      && response.Returned? && response.data.Some?
      && (response.data.value.content.None? || response.data.value.content.value.dataType != "moveObject")
    ensures r.Some? ==> r.value in {NotFound, NotMoveObject, NotPolysuiMarket}
  {
    match response
    case Threw => Some(NotFound)
    case Returned(None) => Some(NotFound)
    case Returned(Some(data)) =>
      if data.content.None? || data.content.value.dataType != "moveObject" then Some(NotMoveObject)
      else if data.objectType.None? || !StartsWith(data.objectType.value, ExpectedType(packageId)) then
        Some(NotPolysuiMarket)
      else None
  }

  datatype SearchOutcome = Refused(error: SearchError) | Navigate(id: string)

  /** The node is asked for the object only when the trimmed ID is non-empty and well formed. */
  predicate Queries(input: string, isValidObjectId: string -> bool) {
    Trim(input) != "" && isValidObjectId(Trim(input))
  }

  /**
   * `handleSubmit` as a function of the input, the ID-format predicate and
   * the node's answer for each ID. The page navigates to the trimmed ID
   * exactly when that ID is well formed and names a Polysui market; every
   * other input is refused with the first check that fails.
   */
  function Search(input: string, isValidObjectId: string -> bool, getObject: string -> GetObjectResult,
                  packageId: string): (r: SearchOutcome)
    ensures Trim(input) == "" <==> r == Refused(EmptyId)
    ensures Trim(input) != "" && !isValidObjectId(Trim(input)) <==> r == Refused(BadFormat)
    ensures r.Navigate? <==> Queries(input, isValidObjectId) && IsPolysuiMarket(getObject(Trim(input)), packageId)
    ensures r.Navigate? ==> r.id == Trim(input) && r.id != "" && IsTrimmed(r.id)
    ensures Queries(input, isValidObjectId) && r.Refused? ==> Some(r.error) == CheckObject(getObject(Trim(input)), packageId)
  {
    TrimSpec(input);
    var trimmedId := Trim(input);
    if trimmedId == "" then Refused(EmptyId)
    else if !isValidObjectId(trimmedId) then Refused(BadFormat)
    else
      match CheckObject(getObject(trimmedId), packageId)
      case Some(e) => Refused(e)
      case None => Navigate(trimmedId)
  }

  /** A blank or malformed ID is refused whatever the node would say: no request is made for it. */
  lemma NoQueryForRejectedInput(input: string, isValidObjectId: string -> bool,
                                getObject1: string -> GetObjectResult, getObject2: string -> GetObjectResult,
                                packageId: string)
    requires !Queries(input, isValidObjectId)
    ensures Search(input, isValidObjectId, getObject1, packageId) == Search(input, isValidObjectId, getObject2, packageId)
    ensures Search(input, isValidObjectId, getObject1, packageId).Refused?
  {
  }

  /** Only the object at the trimmed ID matters: the answers for other IDs cannot change the outcome. */
  lemma OnlyTrimmedIdQueried(input: string, isValidObjectId: string -> bool,
                             getObject1: string -> GetObjectResult, getObject2: string -> GetObjectResult,
                             packageId: string)
    requires getObject1(Trim(input)) == getObject2(Trim(input))
    ensures Search(input, isValidObjectId, getObject1, packageId) == Search(input, isValidObjectId, getObject2, packageId)
  {
  }

  /** Surrounding white space does not change the outcome. */
  lemma SearchIgnoresSurroundingSpace(input: string, isValidObjectId: string -> bool,
                                      getObject: string -> GetObjectResult, packageId: string)
    ensures Search(Trim(input), isValidObjectId, getObject, packageId) == Search(input, isValidObjectId, getObject, packageId)
  {
    TrimIdempotent(input);
  }

  /** The search page's state. */
  class MarketSearchPage {
    var marketId: string
    var error: string
    var isChecking: bool

    constructor ()
      ensures marketId == "" && error == "" && !isChecking
    {
      marketId := "";
      error := "";
      isChecking := false;
    }

    /**
     * `handleSubmit`. The error shown is the message of the search's refusal
     * (none on navigation); the page is marked checking from the request on,
     * and unmarked again when the fetched object is refused.
     */
    method HandleSubmit(isValidObjectId: string -> bool, getObject: string -> GetObjectResult, packageId: string)
      returns (navigateTo: Option<string>)
      modifies this`error, this`isChecking
      ensures var outcome := Search(old(marketId), isValidObjectId, getObject, packageId);
        && (outcome.Navigate? ==> navigateTo == Some(outcome.id) && error == "")
        && (outcome.Refused? ==> navigateTo == None && error == SearchErrorMessage(outcome.error))
        && isChecking == (if Queries(old(marketId), isValidObjectId) then outcome.Navigate? else old(isChecking))
    {
      error := "";
      var trimmedId := Trim(marketId);
      if trimmedId == "" {
        error := SearchErrorMessage(EmptyId);
        return None;
      }
      if !isValidObjectId(trimmedId) {
        error := SearchErrorMessage(BadFormat);
        return None;
      }
      isChecking := true;
      var obj := getObject(trimmedId);
      if obj.Threw? || obj.data.None? {
        error := SearchErrorMessage(NotFound);
        isChecking := false;
        return None;
      }
      var data := obj.data.value;
      if data.content.None? || data.content.value.dataType != "moveObject" {
        error := SearchErrorMessage(NotMoveObject);
        isChecking := false;
        return None;
      }
      var objectType := data.objectType;
      var expectedType := ExpectedType(packageId);
      if objectType.None? || !StartsWith(objectType.value, expectedType) {
        error := SearchErrorMessage(NotPolysuiMarket);
        isChecking := false;
        return None;
      }
      navigateTo := Some(trimmedId);
    }

    /** `handleInputChange`: the new text is kept and any error is cleared. */
    method HandleInputChange(value: string)
      modifies this`marketId, this`error
      ensures marketId == value && error == ""
    {
      marketId := value;
      if error != "" {
        error := "";
      }
    }
  }
}
