/** Sending one message, with retries. */
module Mail {
  import opened Basics

  datatype SmtpReply = Accepted | ContextCancelled | Refused

  /** One call of send: are the addresses usable, and how does the server answer each try? */
  datatype Letter = Letter(addressable: bool, smtp: nat -> SmtpReply)

  datatype SendResult =
    | Sent(tries: nat)
    | Stopped(tries: nat)
    | GaveUp(tries: nat)
    | NotTried

  function AtLeastZero(retries: int): nat {
    if retries > 0 then retries else 0
  }

  predicate AllRefused(letter: Letter, n: nat) {
    forall k | 1 <= k <= n :: letter.smtp(k) == Refused
  }

  /** What send may report: tries count up to the one that decides, and never past `retries`. */
  ghost predicate SendOutcome(retries: int, content: Text, letter: Letter, r: SendResult) {
    match r
    case NotTried => content == [] || !letter.addressable
    case Sent(n) =>
      content != [] && letter.addressable && 1 <= n <= retries
      && AllRefused(letter, n - 1) && letter.smtp(n) == Accepted
    case Stopped(n) =>
      content != [] && letter.addressable && 1 <= n <= retries
      && AllRefused(letter, n - 1) && letter.smtp(n) == ContextCancelled
    case GaveUp(n) =>
      content != [] && letter.addressable && n == AtLeastZero(retries) && AllRefused(letter, n)
  }

  function SendFrom(retries: int, letter: Letter, i: nat): SendResult
    requires i >= 1
    decreases retries - i
  {
    if i > retries then GaveUp(i - 1)
    else
      match letter.smtp(i)
      case Accepted => Sent(i)
      case ContextCancelled => Stopped(i)
      case Refused => SendFrom(retries, letter, i + 1)
  }

  function SendResultOf(retries: int, content: Text, letter: Letter): SendResult {
    if content == [] || !letter.addressable then NotTried else SendFrom(retries, letter, 1)
  }

  /** `content` is the text part followed by the HTML part. */
  method Send(retries: int, content: Text, letter: Letter) returns (r: SendResult)
    ensures r == SendResultOf(retries, content, letter)
    ensures SendOutcome(retries, content, letter, r)
  {
    if |content| == 0 || !letter.addressable {
      return NotTried;
    }
    var i: nat := 1;
    while i <= retries
      invariant 1 <= i <= AtLeastZero(retries) + 1
      invariant AllRefused(letter, i - 1)
      invariant SendFrom(retries, letter, i) == SendFrom(retries, letter, 1)
      decreases retries - i
    {
      match letter.smtp(i) {
        case Accepted => return Sent(i);
        case ContextCancelled => return Stopped(i);
        case Refused =>
      }
      i := i + 1;
    }
    return GaveUp(i - 1);
  }

  lemma {:induction false} SendFromSkips(retries: int, letter: Letter, i: nat)
    requires 1 <= i <= AtLeastZero(retries) + 1 && AllRefused(letter, i - 1)
    ensures SendFrom(retries, letter, i) == SendFrom(retries, letter, 1)
  {
    if i > 1 {
      SendFromSkips(retries, letter, i - 1);
      assert letter.smtp(i - 1) == Refused;
    }
  }

  lemma {:induction false} SendFromOutcome(retries: int, content: Text, letter: Letter, i: nat)
    requires content != [] && letter.addressable
    requires 1 <= i <= AtLeastZero(retries) + 1 && AllRefused(letter, i - 1)
    ensures SendOutcome(retries, content, letter, SendFrom(retries, letter, i))
    decreases retries - i
  {
    if i <= retries && letter.smtp(i) == Refused {
      SendFromOutcome(retries, content, letter, i + 1);
    }
  }

  /** After n - 1 refused tries the next answer decides, unless it is refused too and the last. */
  lemma TryDecides(retries: int, content: Text, letter: Letter, n: nat)
    requires content != [] && letter.addressable && 1 <= n <= retries
    requires forall k | 1 <= k < n :: letter.smtp(k) == Refused
    ensures letter.smtp(n) == Accepted ==> SendResultOf(retries, content, letter) == Sent(n)
    ensures letter.smtp(n) == ContextCancelled ==> SendResultOf(retries, content, letter) == Stopped(n)
    ensures letter.smtp(n) == Refused && n == retries ==> SendResultOf(retries, content, letter) == GaveUp(n)
  {
    SendFromSkips(retries, letter, n);
  }

  /** The server's answers determine the outcome. */
  lemma SendOutcomeIff(retries: int, content: Text, letter: Letter, r: SendResult)
    ensures r == SendResultOf(retries, content, letter) <==> SendOutcome(retries, content, letter, r)
  {
    if content != [] && letter.addressable {
      SendFromOutcome(retries, content, letter, 1);
      if SendOutcome(retries, content, letter, r) {
        match r {
          case Sent(n) => SendFromSkips(retries, letter, n);
          case Stopped(n) => SendFromSkips(retries, letter, n);
          case GaveUp(n) => SendFromSkips(retries, letter, n + 1);
          case NotTried =>
        }
      }
    }
  }
}
