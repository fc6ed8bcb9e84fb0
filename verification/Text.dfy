/** Decimal printing and parsing, values with a counter prefix, the texts that requests
    sign, and the lines of the rendezvous. */
module Text {
  import opened Wrappers

  const TWO_TO_63: int := 0x8000_0000_0000_0000
  const TWO_TO_64: int := 0x1_0000_0000_0000_0000

  // ----- Decimal numbers -----

  predicate AllDigits(s: string) {
    forall i | 0 <= i < |s| :: '0' <= s[i] <= '9'
  }

  /** `%d` of a number that is not negative. */
  function Decimal(n: nat): (s: string)
    ensures s != "" && AllDigits(s)
    ensures s[0] == '0' ==> n == 0 && s == "0"
  {
    if n < 10 then [('0' as int + n) as char]
    else Decimal(n / 10) + [('0' as int + n % 10) as char]
  }

  /** `%d` */
  function IntText(i: int): (s: string)
    ensures '.' !in s && ' ' !in s && '_' !in s
  {
    if i < 0 then "-" + Decimal(-i) else Decimal(i)
  }

  function Number(digits: string): nat
    requires AllDigits(digits)
  {
    if digits == "" then 0
    else
      var n := |digits| - 1;
      10 * Number(digits[..n]) + (digits[n] as int - '0' as int)
  }

  lemma {:induction false} NumberOfDecimal(n: nat)
    ensures Number(Decimal(n)) == n
  {
    if n >= 10 {
      NumberOfDecimal(n / 10);
      assert Decimal(n)[..|Decimal(n)| - 1] == Decimal(n / 10);
    } else {
      assert Decimal(n)[..0] == "";
    }
  }

  lemma {:induction false} DecimalOfNumber(digits: string)
    requires AllDigits(digits) && digits != ""
    ensures Decimal(Number(digits)) == digits <==> digits == "0" || digits[0] != '0'
  {
    var n := |digits| - 1;
    var init, last := digits[..n], digits[n] as int - '0' as int;
    assert digits == init + [digits[n]];
    if n == 0 {
      assert digits[..0] == "";
    } else if digits[0] != '0' {
      assert digits[0] == init[0];
      DecimalOfNumber(init);
      assert Number(digits) == 10 * Number(init) + last;
      assert Number(init) > 0;
    }
  }

  lemma IntTextInjective(i: int, j: int)
    requires IntText(i) == IntText(j)
    ensures i == j
  {
    var d, e := Decimal(if i < 0 then -i else i), Decimal(if j < 0 then -j else j);
    assert d == e by {
      if i < 0 && j < 0 {
        assert IntText(i)[1..] == d && IntText(j)[1..] == e;
      }
    }
    NumberOfDecimal(if i < 0 then -i else i);
    NumberOfDecimal(if j < 0 then -j else j);
  }

  // ----- Separators -----

  function IndexOf(s: string, c: char): (at: nat)
    ensures at <= |s| && c !in s[..at]
    ensures at < |s| ==> s[at] == c
    ensures c in s ==> at < |s|
  {
    if s == "" || s[0] == c then 0
    else
      var at := IndexOf(s[1..], c);
      assert s[..at + 1] == [s[0]] + s[1..][..at];
      at + 1
  }

  /** What stands before and behind a separator is determined by the text, if what stands
      before does not contain it. */
  lemma FirstSplit(a: string, x: string, b: string, y: string, c: char)
    requires c !in a && c !in b
    requires a + [c] + x == b + [c] + y
    ensures a == b && x == y
  {
    var s := a + [c] + x;
    assert forall i | 0 <= i < |a| :: s[i] == a[i] && s[i] in a;
    assert forall i | 0 <= i < |b| :: s[i] == b[i] && s[i] in b;
    assert s[|a|] == c && s[|b|] == c;
    assert s[..|a|] == a && s[..|b|] == b && s[|a| + 1..] == x && s[|b| + 1..] == y;
  }

  /** The same for the last separator. */
  lemma LastSplit(x: string, a: string, y: string, b: string, c: char)
    requires c !in a && c !in b
    requires x + [c] + a == y + [c] + b
    ensures x == y && a == b
  {
    var s := x + [c] + a;
    assert forall i | |x| < i < |s| :: s[i] == a[i - |x| - 1] && s[i] in a;
    assert forall i | |y| < i < |s| :: s[i] == b[i - |y| - 1] && s[i] in b;
    assert s[|x|] == c && s[|y|] == c;
    assert s[..|x|] == x && s[..|y|] == y && s[|x| + 1..] == a && s[|y| + 1..] == b;
  }

  // ----- Values with a counter -----

  /** `strconv.ParseUint` in base 10 with 64 bits. */
  function Pow10(n: nat): nat {
    if n == 0 then 1 else 10 * Pow10(n - 1)
  }

  lemma TenTimes(a: int, b: int)
    ensures a * (10 * b) == 10 * (a * b)
  {
  }

  /** Read from the left: each digit counts for itself times its power of ten. */
  lemma {:induction false} NumberFromTheLeft(digits: string)
    requires AllDigits(digits) && digits != ""
    ensures AllDigits(digits[1..])
    ensures Number(digits) == (digits[0] - '0') as int * Pow10(|digits| - 1) + Number(digits[1..])
  {
    if |digits| > 1 {
      var n := |digits| - 1;
      NumberFromTheLeft(digits[..n]);
      assert digits[..n][1..] == digits[1..][..n - 1] && digits[1..][n - 1] == digits[n];
      assert Number(digits[1..]) == 10 * Number(digits[1..][..n - 1]) + (digits[n] - '0') as int;
      TenTimes((digits[0] - '0') as int, Pow10(n - 1));
    }
  }

  /** How numbers are printed. */
  lemma Printed()
    ensures IntText(0) == "0" && IntText(10) == "10" && IntText(-1) == "-1"
    ensures FormatValue(10, "a_b") == "10_a_b"
    ensures TWO_TO_64 == 2 * TWO_TO_63 == 18_446_744_073_709_551_616
  {
    assert Decimal(1) == "1" && Decimal(0) == "0" && Decimal(10) == Decimal(1) + "0";
  }

  function ParseUint(s: string): Option<nat> {
    if s != "" && AllDigits(s) && Number(s) < TWO_TO_64 then Some(Number(s)) else None
  }

  function ParseValue(value: string): (nat, string) {
    var at := IndexOf(value, '_');
    if at == |value| then (0, value)
    else
      match ParseUint(value[..at])
      case None => (0, value)
      case Some(nonce) => (nonce, value[at + 1..])
  }

  function FormatValue(counter: int, value: string): string {
    IntText(counter) + "_" + value
  }

  /** Any digits below 2^64 before the first underscore are taken as the counter. */
  lemma ParseSplits(digits: string, value: string)
    requires digits != "" && AllDigits(digits) && Number(digits) < TWO_TO_64
    ensures ParseValue(digits + "_" + value) == (Number(digits), value)
  {
    var s := digits + "_" + value;
    var at := IndexOf(s, '_');
    assert s[|digits|] == '_';
    assert s == s[..at] + ['_'] + s[at + 1..];
    FirstSplit(digits, value, s[..at], s[at + 1..], '_');
  }

  /** Every other text is a value without counter. */
  lemma ParseShape(s: string)
    ensures ParseValue(s) == (0, s)
            || exists digits ::
                 && digits != "" && AllDigits(digits) && Number(digits) == ParseValue(s).0 < TWO_TO_64
                 && s == digits + "_" + ParseValue(s).1
  {
    var at := IndexOf(s, '_');
    if ParseValue(s) != (0, s) {
      var digits := s[..at];
      assert s == digits + "_" + s[at + 1..];
      assert AllDigits(digits) && Number(digits) == ParseValue(s).0;
    }
  }

  /** Formatting then parsing: for every int64 counter. */
  lemma ParseOfFormat(counter: int, value: string)
    requires -TWO_TO_63 <= counter < TWO_TO_63
    ensures ParseValue(FormatValue(counter, value))
            == if counter < 0 then (0, FormatValue(counter, value)) else (counter, value)
  {
    if counter >= 0 {
      NumberOfDecimal(counter);
      ParseSplits(Decimal(counter), value);
    } else {
      var s := FormatValue(counter, value);
      var at := IndexOf(s, '_');
      assert s[0] == '-' && (at > 0 ==> s[..at][0] == '-');
    }
  }

  /** Parsing then formatting: exact but for the leading zeros that parsing drops. */
  lemma FormatOfParse(digits: string, value: string)
    requires digits != "" && AllDigits(digits) && Number(digits) < TWO_TO_63
    ensures var (nonce, rest) := ParseValue(digits + "_" + value);
      FormatValue(nonce, rest) == digits + "_" + value <==> digits == "0" || digits[0] != '0'
  {
    ParseSplits(digits, value);
    DecimalOfNumber(digits);
    var printed := Decimal(Number(digits));
    if printed + "_" + value == digits + "_" + value {
      FirstSplit(printed, value, digits, value, '_');
    }
  }

  // ----- Signed texts -----

  /** What a List request signs. */
  function ListText(name: string, timestamp: int): string {
    name + "." + IntText(timestamp)
  }

  /** What an Add or Remove request signs. */
  function EntryText(name: string, timestamp: int, entry: string): string {
    name + "." + Stamped(timestamp, entry)
  }

  function Stamped(timestamp: int, entry: string): string {
    IntText(timestamp) + "." + entry
  }

  lemma ListTextInjective(name: string, timestamp: int, name': string, timestamp': int)
    requires ListText(name, timestamp) == ListText(name', timestamp')
    ensures name == name' && timestamp == timestamp'
  {
    LastSplit(name, IntText(timestamp), name', IntText(timestamp'), '.');
    IntTextInjective(timestamp, timestamp');
  }

  lemma EntryTextInjective(name: string, timestamp: int, entry: string, timestamp': int, entry': string)
    requires EntryText(name, timestamp, entry) == EntryText(name, timestamp', entry')
    ensures timestamp == timestamp' && entry == entry'
  {
    assert EntryText(name, timestamp, entry)[|name| + 1..] == Stamped(timestamp, entry);
    assert EntryText(name, timestamp', entry')[|name| + 1..] == Stamped(timestamp', entry');
    FirstSplit(IntText(timestamp), entry, IntText(timestamp'), entry', '.');
    IntTextInjective(timestamp, timestamp');
  }

  lemma Join(a: string, b: string, c: string)
    ensures a + "." + (b + "." + c) == (a + "." + b) + "." + c
  {
  }

  lemma LongerName(name: string, x: string, name': string, y: string) returns (rest: string)
    requires |name| < |name'| && name + "." + x == name' + "." + y
    ensures name' == name + "." + rest && x == rest + "." + y
  {
    rest := name'[|name| + 1..];
    assert name' == (name + "." + x)[..|name'|];
    assert name' == name + "." + rest;
    Join(name, rest, y);
    assert (name + "." + x)[|name| + 1..] == x;
    assert (name + "." + (rest + "." + y))[|name| + 1..] == rest + "." + y;
  }

  /** `name` is `shorter` continued with that timestamp, and `middle` if there is one. */
  predicate Continues(name: string, shorter: string, timestamp: int, middle: Option<string>) {
    name == shorter + "." + if middle.Some? then Stamped(timestamp, middle.value) else IntText(timestamp)
  }

  function Remainder(middle: Option<string>, timestamp: int, entry: string): string {
    if middle.Some? then middle.value + "." + Stamped(timestamp, entry) else Stamped(timestamp, entry)
  }

  lemma CollisionShape(name: string, timestamp: int, entry: string, name': string, timestamp': int, entry': string)
      returns (middle: Option<string>)
    requires |name| < |name'| && EntryText(name, timestamp, entry) == EntryText(name', timestamp', entry')
    ensures Continues(name', name, timestamp, middle) && entry == Remainder(middle, timestamp', entry')
  {
    var t, end := IntText(timestamp), Stamped(timestamp', entry');
    var rest := LongerName(name, Stamped(timestamp, entry), name', end);
    var at := IndexOf(rest, '.');
    if at == |rest| {
      assert rest[..at] == rest;
      FirstSplit(t, entry, rest, end, '.');
      middle := None;
    } else {
      var before, x := rest[..at], rest[at + 1..];
      assert rest == before + "." + x;
      Join(before, x, end);
      FirstSplit(t, entry, before, x + "." + end, '.');
      middle := Some(x);
    }
  }

  /** Across names the text does not determine the request, and exactly these requests
      collide: the longer name continues the shorter one with the shorter request's
      timestamp, and the shorter request's entry is all that is left of the longer text. */
  lemma EntryTextCollisions(name: string, timestamp: int, entry: string, name': string, timestamp': int, entry': string)
    requires |name| < |name'|
    ensures EntryText(name, timestamp, entry) == EntryText(name', timestamp', entry') <==>
            exists middle :: Continues(name', name, timestamp, middle) && entry == Remainder(middle, timestamp', entry')
  {
    if EntryText(name, timestamp, entry) == EntryText(name', timestamp', entry') {
      var middle := CollisionShape(name, timestamp, entry, name', timestamp', entry');
    }
    forall middle | Continues(name', name, timestamp, middle) && entry == Remainder(middle, timestamp', entry')
      ensures EntryText(name, timestamp, entry) == EntryText(name', timestamp', entry')
    {
      var t, end := IntText(timestamp), Stamped(timestamp', entry');
      if middle.Some? {
        Join(t, middle.value, end);
        Join(name, Stamped(timestamp, middle.value), end);
      } else {
        Join(name, t, end);
      }
    }
  }

  // ----- Lines of the rendezvous -----

  /** An Add's text is a List's with the entry behind it. */
  lemma EntryTextExtends(name: string, timestamp: int, entry: string)
    ensures EntryText(name, timestamp, entry) == ListText(name, timestamp) + "." + entry
  {
  }

  /** The texts as they are signed. */
  lemma SignedTexts()
    ensures ListText("room", 10) == "room.10" && EntryText("room", 10, "e") == "room.10.e"
  {
    Printed();
  }

  /** A List and an Add have one text exactly if the timestamp of the List ends the entry, alone
      or behind a dot, and what is left of the Add's text is the List's name. */
  lemma ListIsEntryText(name: string, timestamp: int, entry: string, name': string, timestamp': int)
    ensures ListText(name', timestamp') == EntryText(name, timestamp, entry) <==>
            || (entry == IntText(timestamp') && name' == ListText(name, timestamp))
            || exists front :: entry == front + "." + IntText(timestamp') && name' == EntryText(name, timestamp, front)
  {
    var t, t' := ListText(name, timestamp), IntText(timestamp');
    EntryTextExtends(name, timestamp, entry);
    if front :| entry == front + "." + t' && name' == EntryText(name, timestamp, front) {
      EntryTextExtends(name, timestamp, front);
      Join(t, front, t');
      assert t + "." + (front + "." + t') == (t + "." + front) + "." + t';
    }
    if ListText(name', timestamp') == t + "." + entry {
      if '.' !in entry {
        LastSplit(name', t', t, entry, '.');
      } else {
        var front, last := SplitAtLastDot(entry);
        EntryTextExtends(name, timestamp, front);
        Join(t, front, last);
        LastSplit(name', t', t + "." + front, last, '.');
      }
    }
  }

  lemma {:induction false} SplitAtLastDot(s: string) returns (front: string, last: string)
    requires '.' in s
    ensures s == front + "." + last && '.' !in last
  {
    var n := |s| - 1;
    if s[n] == '.' {
      front, last := s[..n], "";
    } else {
      front, last := SplitAtLastDot(s[..n]);
      assert s == s[..n] + [s[n]];
      last := last + [s[n]];
    }
  }

  /** Two requests with one signed text. */
  lemma EntryTextsCollide()
    ensures EntryText("a", 1, "2.e") == EntryText("a.1", 2, "e") == "a.1.2.e"
  {
    assert IntText(1) == "1" && IntText(2) == "2";
  }

  /** A line of the exchange: "Ping" or "Pong", counter and time. */
  function Line(word: string, counter: nat, time: string): string {
    word + " " + IntText(counter) + " " + time
  }

  lemma LinesDiffer(word: string, counter: nat, time: string, word': string, counter': nat, time': string)
    requires ' ' !in word && ' ' !in word'
    requires Line(word, counter, time) == Line(word', counter', time')
    ensures word == word' && counter == counter' && time == time'
  {
    var rest, rest' := IntText(counter) + " " + time, IntText(counter') + " " + time';
    assert Line(word, counter, time) == word + " " + rest && Line(word', counter', time') == word' + " " + rest';
    FirstSplit(word, rest, word', rest', ' ');
    FirstSplit(IntText(counter), time, IntText(counter'), time', ' ');
    IntTextInjective(counter, counter');
  }

  lemma LinesAsPrinted()
    ensures Line("Ping", 1, "12:00") == "Ping 1 12:00" && Line("Pong", 10, "t") == "Pong 10 t"
  {
    Printed();
    assert Decimal(1) == "1";
  }
}
