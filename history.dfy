/** What the bot remembers per user: the turn record, the key it is filed
    under, and the text recorded for the user's side (Bot.py:58, 117-121). */
module History {

  /** One stored exchange: `{"timestamp": …, "user": …, "bot": …}`. */
  datatype Turn = Turn(timestamp: string, user: string, bot: string)

  /** The per-user history table, a dictionary from user key to turns. */
  type Table = map<string, seq<Turn>>

  /** Recorded in place of the user's words when the message had no text. */
  const NoTextPlaceholder: string := "[Image/File]"

  /** `message.content or "[Image/File]"` */
  function RecordedUserText(content: string): (r: string)
    ensures content != "" ==> r == content
    ensures content == "" ==> r == NoTextPlaceholder
    ensures r != ""
  {
    if content != "" then content else NoTextPlaceholder
  }

  function DigitChar(d: nat): (c: char)
    requires d < 10
    ensures '0' <= c <= '9'
  {
    ['0', '1', '2', '3', '4', '5', '6', '7', '8', '9'][d]
  }

  lemma DigitCharInjective(a: nat, b: nat)
    requires a < 10 && b < 10 && DigitChar(a) == DigitChar(b)
    ensures a == b
  {
  }

  /** `str(n)` for a non-negative integer: its decimal digits, no leading zeros. */
  function Decimal(n: nat): (s: string)
    ensures |s| >= 1
    ensures forall i :: 0 <= i < |s| ==> '0' <= s[i] <= '9'
    ensures n >= 10 ==> |s| >= 2
    decreases n
  {
    if n < 10 then [DigitChar(n)] else Decimal(n / 10) + [DigitChar(n % 10)]
  }

  /** `str(message.author.id)`: the key a user's history is filed under. */
  function UserKey(authorId: nat): string
  {
    Decimal(authorId)
  }

  /** Distinct numbers print differently, so distinct users never share an entry. */
  lemma {:induction false} DecimalInjective(a: nat, b: nat)
    requires Decimal(a) == Decimal(b)
    ensures a == b
    decreases a
  {
    var s := Decimal(a);
    if a < 10 && b < 10 {
      DigitCharInjective(a, b);
    } else if a >= 10 && b >= 10 {
      assert s[..|s| - 1] == Decimal(a / 10) && s[..|s| - 1] == Decimal(b / 10);
      DecimalInjective(a / 10, b / 10);
      DigitCharInjective(a % 10, b % 10);
    }
  }

  lemma UserKeyInjective(a: nat, b: nat)
    ensures UserKey(a) == UserKey(b) <==> a == b
  {
    if UserKey(a) == UserKey(b) {
      DecimalInjective(a, b);
    }
  }
}
