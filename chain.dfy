/**
 * The values the front end exchanges with the wallet and the Sui node: the
 * fields of a `VotingMarket` object as `getObject` returns them, the
 * object-change records of a transaction, the three Move calls it builds,
 * and the notification the pages hand to the application shell.
 */
module Chain {
  import opened Wrappers
  import opened JsText

  /**
   * The fields of a `market::VotingMarket` object. Vote counts arrive as
   * decimal strings and are read with `Number`; a list the node leaves out,
   * or that is not an array, is `None`.
   */
  datatype MarketFields = MarketFields(
    question: string,
    options: seq<string>,
    votes: Option<seq<nat>>,
    deadline: int,
    whitelistEnabled: bool,
    voters: Option<seq<string>>,
    initialVoters: Option<seq<string>>,
    creator: Option<string>)

  /** `obj.data.content`: the kind of object (`"moveObject"` or `"package"`) and its fields. */
  datatype Content = Content(dataType: string, fields: MarketFields)

  /** `obj.data`: the full type name and the content, each possibly absent. */
  datatype ObjectData = ObjectData(objectType: Option<string>, content: Option<Content>)

  /** The outcome of `client.getObject`: it threw, or it answered with `data` present or not. */
  datatype GetObjectResult = Threw | Returned(data: Option<ObjectData>)

  /** One entry of a transaction's `objectChanges`. */
  datatype ObjectChange = ObjectChange(changeType: string, objectType: string, objectId: string)

  /** The clock object the vote and whitelist calls pass (`"0x6"`). */
  const SystemClock: string := "0x6"

  /** A Move call of the `market` module, with its arguments in call order. */
  datatype MoveCall =
    | CreateMarketCall(question: string, options: seq<string>, whitelist: seq<string>,
                       durationMinutes: JsInt, whitelistEnabled: bool, clock: string)
    | VoteCall(market: string, option: nat, clock: string)
    | AddToWhitelistCall(market: string, addresses: seq<string>, clock: string)

  datatype NoticeKind = Success | Error

  /** A banner message passed to `onNotify`. */
  datatype Notice = Notice(message: string, kind: NoticeKind)
}
