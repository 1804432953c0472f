/** The rows the Sentinel keeps, and the one database session every service works through. */
module Database {
  import opened Common

  datatype Via = Baseline | Sighting

  datatype AlertState = AlertSent | AlertFailed | AlertDisabled | AlertCapped

  datatype PollStatus = PollSuccess | PollZeroItems | PollBlocked | PollFailed

  datatype Lifecycle = Failed | ProviderAccepted | ProviderIdentified | VerifiedVisible

  /** Missing texts are empty; both read as false in the original. */
  datatype IdentityRow = IdentityRow(
    canonical: string,
    title: string,
    via: Via,
    firstSource: string,
    firstSeenAt: int,
    lastSeenAt: int,
    lastSeenSource: string)

  /** The id of a sighting is its position counted from one. */
  datatype SightingRow = SightingRow(
    key: string,
    source: string,
    title: string,
    reference: string,
    detectedAt: int,
    alertState: AlertState,
    alertError: string)

  datatype SourceState = SourceState(
    armedAt: Option<int>,
    lastPollAt: Option<int>,
    lastSuccessAt: Option<int>,
    lastStatus: Option<PollStatus>)

  datatype Receipt = Receipt(
    lifecycle: Lifecycle,
    providerStatus: Option<int>,
    messageId: string,
    channelId: string,
    destinationAlias: string,
    attemptCount: nat,
    firstAttemptAt: int,
    lastAttemptAt: int,
    errorSummary: string)

  datatype Db = Db(
    identities: map<string, IdentityRow>,
    sightings: seq<SightingRow>,
    states: map<string, SourceState>,
    receipts: map<string, Receipt>)

  /** All tables of one database, updated in place by the services that share the session. */
  class Session {
    var identities: map<string, IdentityRow>
    var sightings: seq<SightingRow>
    var states: map<string, SourceState>
    var receipts: map<string, Receipt>

    constructor ()
      ensures View() == Db(map[], [], map[], map[])
    {
      identities, sightings, states, receipts := map[], [], map[], map[];
    }

    function View(): Db
      reads this
    {
      Db(identities, sightings, states, receipts)
    }
  }
}
