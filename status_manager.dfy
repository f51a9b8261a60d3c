/**
 * Timed status-line messages (`StatusMessage`, `StatusManager`).
 *
 * The monotonic clock is the parameter `now`, in nanoseconds; a message
 * remembers the instant it was made. `Instant::elapsed` saturates at zero.
 */
module StatusMessages {
  import opened Wrappers
  import opened Ints

  const Second: nat := 1_000_000_000

  datatype MessageType = Info | Success | Warning | Error

  datatype StatusMessage = StatusMessage(
    content: string,
    messageType: MessageType,
    createdAt: nat,
    autoClear: Option<nat>)

  /** How long a message of each type stays up unless told otherwise. */
  function DefaultDuration(t: MessageType): (d: Option<nat>)
    ensures d.Some? && d.value % Second == 0
    ensures t == Info ==> d == Some(3 * Second)
    ensures t == Success ==> d == Some(2 * Second)
    ensures t == Warning ==> d == Some(5 * Second)
    ensures t == Error ==> d == Some(7 * Second)
  {
    match t
    case Info => Some(3 * Second)
    case Success => Some(2 * Second)
    case Warning => Some(5 * Second)
    case Error => Some(7 * Second)
  }

  /** The more serious the message, the longer it stays: success, info, warning, error. */
  lemma DurationsOrdered()
    ensures DefaultDuration(Success).value < DefaultDuration(Info).value
      < DefaultDuration(Warning).value < DefaultDuration(Error).value
  {
  }

  /** `StatusMessage::new`: the type's default duration. */
  function NewMessage(content: string, t: MessageType, now: nat): (m: StatusMessage)
    ensures m.content == content && m.messageType == t && m.createdAt == now
    ensures m.autoClear == DefaultDuration(t)
  {
    StatusMessage(content, t, now, DefaultDuration(t))
  }

  /** `StatusMessage::with_duration`. */
  function WithDuration(content: string, t: MessageType, duration: nat, now: nat): (m: StatusMessage)
    ensures m.content == content && m.messageType == t && m.createdAt == now
    ensures m.autoClear == Some(duration)
  {
    StatusMessage(content, t, now, Some(duration))
  }

  /** `StatusMessage::permanent`: no duration at all. */
  function PermanentMessage(content: string, t: MessageType, now: nat): (m: StatusMessage)
    ensures m.content == content && m.messageType == t && m.createdAt == now
    ensures m.autoClear == None
  {
    StatusMessage(content, t, now, None)
  }

  /** Time since the message was made, zero if the clock reads earlier. */
  function Elapsed(m: StatusMessage, now: nat): nat {
    SaturatingSub(now, m.createdAt)
  }

  /** `is_expired`: a duration is set and strictly more than it has elapsed. */
  function IsExpired(m: StatusMessage, now: nat): (r: bool)
    ensures r <==> m.autoClear.Some? && now > m.createdAt + m.autoClear.value
  {
    match m.autoClear
    case Some(d) => Elapsed(m, now) > d
    case None => false
  }

  /** A permanent message never expires. */
  lemma PermanentNeverExpires(content: string, t: MessageType, made: nat, now: nat)
    ensures !IsExpired(PermanentMessage(content, t, made), now)
  {
  }

  /** A message is still up at the very end of its duration and gone one tick later. */
  lemma ExpiresStrictlyAfterDuration(m: StatusMessage)
    requires m.autoClear.Some?
    ensures !IsExpired(m, m.createdAt + m.autoClear.value)
    ensures IsExpired(m, m.createdAt + m.autoClear.value + 1)
  {
  }

  /** Once expired, a message stays expired as the clock moves on. */
  lemma ExpiryIsMonotone(m: StatusMessage, now: nat, later: nat)
    requires now <= later && IsExpired(m, now)
    ensures IsExpired(m, later)
  {
  }

  /** `update` on the current message: it goes when it has expired. */
  function AfterUpdate(current: Option<StatusMessage>, now: nat): (r: Option<StatusMessage>)
    ensures r == None <==> current == None || IsExpired(current.value, now)
    ensures r != None ==> r == current
  {
    match current
    case Some(m) => if IsExpired(m, now) then None else current
    case None => None
  }

  /** Updating twice at the same instant is updating once. */
  lemma UpdateIdempotent(current: Option<StatusMessage>, now: nat)
    ensures AfterUpdate(AfterUpdate(current, now), now) == AfterUpdate(current, now)
  {
  }

  /** A message set at `made` with its default duration survives every update up to two seconds
      later whatever its type: two seconds is the shortest default duration. */
  lemma FreshMessageSurvives(content: string, t: MessageType, made: nat, now: nat)
    requires made <= now <= made + 2 * Second
    ensures AfterUpdate(Some(NewMessage(content, t, made)), now) == Some(NewMessage(content, t, made))
  {
  }

  // ---------------------------------------------------------------------
  // The manager

  class StatusManager {
    var currentMessage: Option<StatusMessage>
    var modeMessage: string

    /** `StatusManager::new`: no message, an empty mode message. */
    constructor()
      ensures currentMessage == None && modeMessage == []
    {
      currentMessage := None;
      modeMessage := [];
    }

    /** `set_info`, `set_success`, `set_warning`, `set_error`: the new message replaces any other. */
    method SetMessage(message: string, t: MessageType, now: nat)
      modifies this
      ensures currentMessage == Some(NewMessage(message, t, now))
      ensures modeMessage == old(modeMessage)
    {
      currentMessage := Some(NewMessage(message, t, now));
    }

    method SetInfo(message: string, now: nat)
      modifies this
      ensures currentMessage == Some(NewMessage(message, Info, now))
      ensures modeMessage == old(modeMessage)
    {
      SetMessage(message, Info, now);
    }

    method SetSuccess(message: string, now: nat)
      modifies this
      ensures currentMessage == Some(NewMessage(message, Success, now))
      ensures modeMessage == old(modeMessage)
    {
      SetMessage(message, Success, now);
    }

    method SetWarning(message: string, now: nat)
      modifies this
      ensures currentMessage == Some(NewMessage(message, Warning, now))
      ensures modeMessage == old(modeMessage)
    {
      SetMessage(message, Warning, now);
    }

    method SetError(message: string, now: nat)
      modifies this
      ensures currentMessage == Some(NewMessage(message, Error, now))
      ensures modeMessage == old(modeMessage)
    {
      SetMessage(message, Error, now);
    }

    /** `set_permanent`: a message that `update` never removes. */
    method SetPermanent(message: string, t: MessageType, now: nat)
      modifies this
      ensures currentMessage == Some(PermanentMessage(message, t, now))
      ensures modeMessage == old(modeMessage)
      ensures forall later :: AfterUpdate(currentMessage, later) == currentMessage
    {
      currentMessage := Some(PermanentMessage(message, t, now));
    }

    /** `set_mode_message`: the current message is left alone. */
    method SetModeMessage(message: string)
      modifies this
      ensures modeMessage == message && currentMessage == old(currentMessage)
    {
      modeMessage := message;
    }

    method Clear()
      modifies this
      ensures !HasMessage() && modeMessage == old(modeMessage)
    {
      currentMessage := None;
    }

    /** `update`: drops the current message if it has expired, otherwise changes nothing. */
    method Update(now: nat)
      modifies this
      ensures currentMessage == AfterUpdate(old(currentMessage), now)
      ensures modeMessage == old(modeMessage)
    {
      match currentMessage {
        case Some(m) =>
          if IsExpired(m, now) {
            currentMessage := None;
          }
        case None =>
      }
    }

    predicate HasMessage()
      reads this
    {
      currentMessage.Some?
    }
  }
}
