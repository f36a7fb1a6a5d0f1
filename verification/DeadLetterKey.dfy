/** The text form of a dead-letter row's key, which a replay carries in a record header. */
module DeadLetterKey {
  import opened Common

  datatype Key = Key(topic: string, partition: int, offset: int)

  predicate Digit(c: char) { '0' <= c <= '9' }

  function Decimal(n: nat): (s: string)
    ensures |s| > 0
  {
    if n < 10 then [('0' as int + n) as char] else Decimal(n / 10) + [('0' as int + n % 10) as char]
  }

  function FormatInt(i: int): string {
    if i < 0 then "-" + Decimal(-i) else Decimal(i)
  }

  function Digits(s: string): Option<nat> {
    if s == "" || !Digit(s[|s| - 1]) then None
    else
      var d := s[|s| - 1] as int - '0' as int;
      if |s| == 1 then Some(d)
      else match Digits(s[..|s| - 1])
        case None => None
        case Some(n) => Some(10 * n + d)
  }

  /** A decimal with an optional sign in [-bound, bound). */
  function ParseInt(s: string, bound: nat): Option<int> {
    var signed := s != "" && (s[0] == '-' || s[0] == '+');
    match Digits(if signed then s[1..] else s)
    case None => None
    case Some(n) =>
      var i: int := if signed && s[0] == '-' then 0 - n else n;
      if 0 - bound <= i < bound then Some(i) else None
  }

  const INT32_BOUND := 0x8000_0000
  const INT64_BOUND := 0x8000_0000_0000_0000

  /** strings.Split on "/". */
  function Split(s: string): (parts: seq<string>)
    ensures |parts| > 0
  {
    if s == "" then [""] else Prepend(s[0], Split(s[1..]))
  }

  /** A character before a text that is already split. */
  function Prepend(c: char, parts: seq<string>): (r: seq<string>)
    requires |parts| > 0
    ensures |r| > 0
  {
    if c == '/' then [""] + parts else [[c] + parts[0]] + parts[1..]
  }

  lemma PrependConcat(c: char, p: seq<string>, q: seq<string>)
    requires |p| > 0
    ensures Prepend(c, p + q) == Prepend(c, p) + q
  {
    assert (p + q)[0] == p[0] && (p + q)[1..] == p[1..] + q;
  }

  function Render(k: Key): string {
    k.topic + "/" + FormatInt(k.partition) + "/" + FormatInt(k.offset)
  }

  function Parse(value: string): Option<Key> {
    var parts := Split(value);
    if |parts| != 3 then None
    else
      match (ParseInt(parts[1], INT32_BOUND), ParseInt(parts[2], INT64_BOUND))
      case (Some(partition), Some(offset)) => Some(Key(parts[0], partition, offset))
      case _ => None
  }

  lemma {:induction false} SplitAround(a: string, b: string)
    ensures Split(a + "/" + b) == Split(a) + Split(b)
  {
    if a == "" {
      assert (a + "/" + b)[1..] == b;
    } else {
      var whole := a + "/" + b;
      assert whole[0] == a[0] && whole[1..] == a[1..] + "/" + b;
      SplitAround(a[1..], b);
      PrependConcat(a[0], Split(a[1..]), Split(b));
    }
  }

  lemma {:induction false} SplitWhole(s: string)
    ensures |Split(s)| == 1 <==> '/' !in s
    ensures '/' !in s ==> Split(s) == [s]
  {
    if s != "" {
      SplitWhole(s[1..]);
      assert s == [s[0]] + s[1..];
    }
  }

  lemma {:induction false} DecimalDigits(n: nat)
    ensures forall c :: c in Decimal(n) ==> Digit(c)
    ensures Digits(Decimal(n)) == Some(n)
  {
    if n >= 10 {
      DecimalDigits(n / 10);
      assert Decimal(n)[..|Decimal(n)| - 1] == Decimal(n / 10);
    }
  }

  lemma {:induction false} DecimalStartsWith(n: nat)
    ensures Digit(Decimal(n)[0]) && (Decimal(n)[0] == '0' <==> n == 0)
  {
    if n >= 10 {
      DecimalStartsWith(n / 10);
    }
  }

  /** A formatted integer has a minus sign exactly when it is negative, and no needless zero in front. */
  lemma FormattedIntIsPlain(i: int)
    ensures FormatInt(i)[0] == '-' <==> i < 0
    ensures i < 0 ==> |FormatInt(i)| > 1 && Digit(FormatInt(i)[1]) && FormatInt(i)[1] != '0'
    ensures i >= 0 ==> Digit(FormatInt(i)[0]) && (FormatInt(i)[0] == '0' <==> i == 0)
  {
    DecimalStartsWith(if i < 0 then -i else i);
  }

  /** Either sign may stand in front of the digits, and every value in range reads as itself. */
  lemma SignedDigitsParse(n: nat, bound: nat)
    ensures ParseInt("+" + Decimal(n), bound) == ParseInt(Decimal(n), bound) == if n < bound then Some(n) else None
    ensures ParseInt("-" + Decimal(n), bound) == if n <= bound && (n > 0 || bound > 0) then Some(0 - n) else None
  {
    var s := Decimal(n);
    DecimalDigits(n);
    DecimalStartsWith(n);
    assert ("+" + s)[1..] == s && ("-" + s)[1..] == s;
  }

  /** A formatted integer reads back exactly when it is in range. */
  lemma FormattedIntParses(i: int, bound: nat)
    ensures ParseInt(FormatInt(i), bound) == if 0 - bound <= i < bound then Some(i) else None
    ensures '/' !in FormatInt(i)
  {
    var s := Decimal(if i < 0 then -i else i);
    DecimalDigits(if i < 0 then -i else i);
    assert Digit(s[0]);
    assert i < 0 ==> FormatInt(i)[1..] == s;
  }

  /** A rendered key reads back exactly when its topic has no slash and its numbers fit; otherwise it is refused. */
  lemma RenderedKeyParses(k: Key)
    ensures Parse(Render(k)) ==
            if '/' !in k.topic && -2147483648 <= k.partition < 2147483648
               && -9223372036854775808 <= k.offset < 9223372036854775808 then Some(k) else None
  {
    var p, o := FormatInt(k.partition), FormatInt(k.offset);
    assert Render(k) == k.topic + "/" + (p + "/" + o);
    SplitAround(k.topic, p + "/" + o);
    SplitAround(p, o);
    SplitWhole(k.topic);
    FormattedIntParses(k.partition, INT32_BOUND);
    FormattedIntParses(k.offset, INT64_BOUND);
    SplitWhole(p);
    SplitWhole(o);
  }
}
