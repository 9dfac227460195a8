/** The numbers of the journal's events and what their fields hold (include/totem_host_event_log.h),
    as far as restoring the previous boot's state depends on them. */
module EventKinds {
  import opened Common
  import opened JournalModel

  datatype Kind =
    | Disc | Conn | ConnFail | SecOk | SecFail | BgEvict | ActiveDownArm | WatchArm | WatchStep
    | ProfileChanged | Identity | ClassASuspect | ThrashWin
    | Boot | Fault | Usb | Adv | Split | Repeat
    | HidSubscribed | HidFirstAttempt | HidTxResult | AdvResult | SecRequest | SecRequestResult
    | FlashBegin | FlashEnd
    | HciDisc | ConnHandle | TimingDropped | HidCount | HidError | HandoffParam | HandoffTerm | HandoffRadio
    | EncryptEvent | SecurityTiming | SecurityExchange | HandoffTx
    | BootRaw | BootReadResult | BootFaultStatus | BootCounter | BootPreviousUptime | BootPreviousState
    | BootRamStatus | Heartbeat

  function Code(k: Kind): u8 {
    match k
    case Disc => 1 case Conn => 2 case ConnFail => 3 case SecOk => 4 case SecFail => 5 case BgEvict => 6
    case ActiveDownArm => 7 case WatchArm => 8 case WatchStep => 9 case ProfileChanged => 10
    case Identity => 11 case ClassASuspect => 12 case ThrashWin => 13
    case Boot => 14 case Fault => 15 case Usb => 16 case Adv => 17 case Split => 18 case Repeat => 19
    case HidSubscribed => 20 case HidFirstAttempt => 21 case HidTxResult => 22 case AdvResult => 23
    case SecRequest => 24 case SecRequestResult => 25 case FlashBegin => 26 case FlashEnd => 27
    case HciDisc => 28 case ConnHandle => 29 case TimingDropped => 30 case HidCount => 31
    case HidError => 32 case HandoffParam => 33 case HandoffTerm => 34 case HandoffRadio => 35
    case EncryptEvent => 36 case SecurityTiming => 37 case SecurityExchange => 38 case HandoffTx => 39
    case BootRaw => 40 case BootReadResult => 41 case BootFaultStatus => 42 case BootCounter => 43
    case BootPreviousUptime => 44 case BootPreviousState => 45 case BootRamStatus => 46 case Heartbeat => 47
  }

  /** What a recorder of this kind puts into the field `active`: the selected profile, half of a
      connection handle, or something else. */
  datatype Content = Selection | HandleByte | Other

  function ActiveHolds(k: Kind): Content {
    match k
    case HciDisc | HandoffParam | HandoffTerm | HandoffRadio => HandleByte
    case EncryptEvent | SecurityTiming | SecurityExchange | HandoffTx => HandleByte
    case Boot | Fault | Usb | Adv | Split | Repeat | TimingDropped | HidCount | HidError => Other
    case BootRaw | BootReadResult | BootFaultStatus | BootCounter | BootPreviousUptime => Other
    case BootPreviousState | BootRamStatus | Heartbeat => Other
    case _ => Selection
  }

  /** The restored profile is taken from events that hold a selection, and from no others; of those,
      the connection mapping is not consulted. */
  lemma ProfilesAreSelections(k: Kind, e: Event)
    requires e.kind == Code(k)
    ensures CarriesProfile(e) <==> ActiveHolds(k).Selection? && !k.ConnHandle? && e.active >= 0
  {
    match k {
      case _ =>
    }
  }

  /** The restored endpoint is taken from transport reports, which USB events mark with reason 0xFF. */
  lemma EndpointsAreTransports(k: Kind, e: Event)
    requires e.kind == Code(k)
    ensures CarriesEndpoint(e) <==> k.Usb? && e.reason == 0xFF
  {
    match k {
      case _ =>
    }
  }
}
