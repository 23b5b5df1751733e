/** The pieces of canonical JSON text: decimal numbers, escaped strings, and the order of keys. */
module CanonicalText {
  import opened Options

  // ---- Numbers -------------------------------------------------------------------------------

  predicate IsDigit(c: char) {
    '0' <= c <= '9'
  }

  function Digit(n: nat): (c: char)
    requires n < 10
    ensures IsDigit(c)
  {
    '0' + n as char
  }

  function DigitValue(c: char): (n: nat)
    requires IsDigit(c)
    ensures n < 10 && Digit(n) == c
  {
    (c - '0') as int
  }

  function Decimal(n: nat): (s: string)
    ensures s != [] && forall i :: 0 <= i < |s| ==> IsDigit(s[i])
  {
    if n < 10 then [Digit(n)] else Decimal(n / 10) + [Digit(n % 10)]
  }

  function FormatInt(n: int): string {
    if n < 0 then "-" + Decimal(-n) else Decimal(n)
  }

  /** How many characters at the front are digits. */
  function Leading(s: string): (n: nat)
    ensures n <= |s| && forall i :: 0 <= i < n ==> IsDigit(s[i])
  {
    if s == [] || !IsDigit(s[0]) then 0 else 1 + Leading(s[1..])
  }

  function ValueOf(s: string): nat
    requires forall i :: 0 <= i < |s| ==> IsDigit(s[i])
  {
    if s == [] then 0 else 10 * ValueOf(s[..|s| - 1]) + DigitValue(s[|s| - 1])
  }

  /** A run of digits with no needless zero in front. */
  function ReadNat(s: string): (r: Option<(int, string)>)
    ensures r.Some? ==> |r.value.1| < |s|
  {
    var n := Leading(s);
    if n == 0 || (s[0] == '0' && n > 1) then None else Some((ValueOf(s[..n]), s[n..]))
  }

  function ReadInt(s: string): (r: Option<(int, string)>)
    ensures r.Some? ==> |r.value.1| < |s|
  {
    if s != [] && s[0] == '-' then
      match ReadNat(s[1..])
      case None => None
      case Some((n, rest)) => Some((-n, rest))
    else ReadNat(s)
  }

  predicate Delimited(rest: string) {
    rest == [] || !IsDigit(rest[0])
  }

  lemma {:induction false} LeadingAll(s: string, rest: string)
    requires (forall i :: 0 <= i < |s| ==> IsDigit(s[i])) && Delimited(rest)
    ensures Leading(s + rest) == |s|
  {
    if s == [] {
      assert s + rest == rest;
    } else {
      assert (s + rest)[1..] == s[1..] + rest;
      LeadingAll(s[1..], rest);
    }
  }

  lemma {:induction false} DecimalValue(n: nat)
    ensures ValueOf(Decimal(n)) == n && (Decimal(n)[0] == '0' ==> n == 0 && |Decimal(n)| == 1)
  {
    if n >= 10 {
      var init := Decimal(n / 10);
      DecimalValue(n / 10);
      assert Decimal(n)[..|Decimal(n)| - 1] == init;
      assert DigitValue(Digit(n % 10)) == n % 10;
    } else {
      assert ValueOf([]) == 0 && [Digit(n)][..0] == [];
      assert DigitValue(Digit(n)) == n;
    }
  }

  lemma NatReadBack(n: nat, rest: string)
    requires Delimited(rest)
    ensures ReadNat(Decimal(n) + rest) == Some((n, rest))
  {
    hide Decimal, ValueOf;
    var s := Decimal(n);
    LeadingAll(s, rest);
    DecimalValue(n);
    assert (s + rest)[..|s|] == s && (s + rest)[|s|..] == rest && (s + rest)[0] == s[0];
  }

  lemma IntReadBack(n: int, rest: string)
    requires Delimited(rest)
    ensures ReadInt(FormatInt(n) + rest) == Some((n, rest))
    ensures FormatInt(n) != [] && (FormatInt(n)[0] == '-' || IsDigit(FormatInt(n)[0]))
  {
    hide Decimal, ReadNat;
    if n < 0 {
      assert (FormatInt(n) + rest)[1..] == Decimal(-n) + rest;
      NatReadBack(-n, rest);
    } else {
      NatReadBack(n, rest);
      assert (Decimal(n) + rest)[0] == Decimal(n)[0];
    }
  }

  // ---- Strings -------------------------------------------------------------------------------

  function HexDigit(n: nat): char
    requires n < 16
  {
    if n < 10 then Digit(n) else 'a' + (n - 10) as char
  }

  function HexValue(c: char): (r: Option<nat>)
    ensures r.Some? ==> r.value < 16
  {
    if IsDigit(c) then Some(DigitValue(c))
    else if 'a' <= c <= 'f' then Some((c - 'a') as int + 10)
    else if 'A' <= c <= 'F' then Some((c - 'A') as int + 10)
    else None
  }

  lemma HexReadBack(n: nat)
    requires n < 16
    ensures HexValue(HexDigit(n)) == Some(n)
  {
  }

  function Escape(c: char): (s: string)
    ensures s != []
  {
    if c == '"' then "\\\""
    else if c == '\\' then "\\\\"
    else if c == 8 as char then "\\b"
    else if c == 12 as char then "\\f"
    else if c == '\n' then "\\n"
    else if c == '\r' then "\\r"
    else if c == '\t' then "\\t"
    else if c < ' ' then "\\u00" + [HexDigit(c as int / 16)] + [HexDigit(c as int % 16)]
    else [c]
  }

  function EscapeAll(s: string): string {
    if s == [] then [] else Escape(s[0]) + EscapeAll(s[1..])
  }

  function Quote(s: string): (q: string)
    ensures q != [] && q[0] == '"'
  {
    "\"" + EscapeAll(s) + "\""
  }

  function Hex4(s: string): (r: Option<nat>)
    ensures r.Some? ==> |s| >= 4 && r.value < 0x1_0000
  {
    if |s| < 4 then None
    else match (HexValue(s[0]), HexValue(s[1]), HexValue(s[2]), HexValue(s[3]))
      case (Some(a), Some(b), Some(c), Some(d)) => Some(a * 4096 + b * 256 + c * 16 + d)
      case _ => None
  }

  /** The second half of a surrogate pair; half a pair reads as the replacement character. */
  function ReadSurrogate(high: nat, s: string): (r: Option<(char, string)>)
    requires 0xD800 <= high < 0xE000
    ensures r.Some? && |r.value.1| <= |s|
  {
    var low := if |s| >= 2 && s[0] == '\\' && s[1] == 'u' then Hex4(s[2..]) else None;
    if high < 0xDC00 && low.Some? && 0xDC00 <= low.value < 0xE000
    then Some(((0x1_0000 + (high - 0xD800) * 0x400 + (low.value - 0xDC00)) as char, s[6..]))
    else Some((0xFFFD as char, s))
  }

  /** One character of a string literal, and what follows it; None where the literal is malformed. */
  function ReadChar(s: string): (r: Option<(char, string)>)
    ensures r.Some? ==> |r.value.1| < |s|
  {
    if s == [] || s[0] < ' ' || s[0] == '"' then None
    else if s[0] != '\\' then Some((s[0], s[1..]))
    else if |s| < 2 then None
    else if s[1] == 'u' then
      match Hex4(s[2..])
      case Some(n) => if 0xD800 <= n < 0xE000 then ReadSurrogate(n, s[6..]) else Some((n as char, s[6..]))
      case None => None
    else match Unescaped(s[1])
      case Some(c) => Some((c, s[2..]))
      case None => None
  }

  function Unescaped(c: char): Option<char> {
    if c == '"' || c == '\\' || c == '/' then Some(c)
    else if c == 'b' then Some(8 as char)
    else if c == 'f' then Some(12 as char)
    else if c == 'n' then Some('\n')
    else if c == 'r' then Some('\r')
    else if c == 't' then Some('\t')
    else None
  }

  /** The rest of a string literal after its opening quote. */
  function ReadString(s: string): (r: Option<(string, string)>)
    ensures r.Some? ==> |r.value.1| < |s|
    decreases |s|
  {
    if s == [] then None
    else if s[0] == '"' then Some(([], s[1..]))
    else match ReadChar(s)
      case None => None
      case Some((c, rest)) =>
        match ReadString(rest)
        case None => None
        case Some((cs, after)) => Some(([c] + cs, after))
  }

  lemma CharReadBack(c: char, rest: string)
    ensures ReadChar(Escape(c) + rest) == Some((c, rest)) && Escape(c)[0] != '"'
  {
    var s := Escape(c) + rest;
    assert s[|Escape(c)|..] == rest;
    if c < ' ' && |Escape(c)| == 6 {
      HexReadBack(c as int / 16);
      HexReadBack(c as int % 16);
      assert HexValue('0') == Some(0);
      assert s[2..][0] == '0' && s[2..][1] == '0' && s[2..][2] == s[4] && s[2..][3] == s[5];
      assert Hex4(s[2..]) == Some(c as int);
    }
  }

  lemma {:induction false} StringReadBack(s: string, rest: string)
    ensures ReadString(EscapeAll(s) + "\"" + rest) == Some((s, rest))
  {
    hide Escape, ReadChar;
    if s == [] {
      assert EscapeAll(s) + "\"" + rest == "\"" + rest;
      assert ("\"" + rest)[1..] == rest;
    } else {
      var tail := EscapeAll(s[1..]) + "\"" + rest;
      assert EscapeAll(s) + "\"" + rest == Escape(s[0]) + tail;
      CharReadBack(s[0], tail);
      assert (Escape(s[0]) + tail)[0] == Escape(s[0])[0];
      StringReadBack(s[1..], rest);
      assert [s[0]] + s[1..] == s;
    }
  }

  // ---- Keys ----------------------------------------------------------------------------------

  /** The order of sort.Strings; for UTF-8 it is the order of code points. */
  predicate Less(a: string, b: string) {
    if b == [] then false
    else if a == [] then true
    else a[0] < b[0] || (a[0] == b[0] && Less(a[1..], b[1..]))
  }

  lemma {:induction false} LessTrichotomy(a: string, b: string)
    ensures a == b || Less(a, b) || Less(b, a)
    ensures !(Less(a, b) && Less(b, a)) && !Less(a, a)
  {
    if a != [] && b != [] && a[0] == b[0] {
      LessTrichotomy(a[1..], b[1..]);
      if a[1..] == b[1..] { assert a == [a[0]] + a[1..] && b == [b[0]] + b[1..]; }
    }
    if a != [] { LessTrichotomy(a[1..], a[1..]); }
  }

  lemma {:induction false} LessTransitive(a: string, b: string, c: string)
    requires Less(a, b) && Less(b, c)
    ensures Less(a, c)
  {
    if a != [] && a[0] == b[0] == c[0] { LessTransitive(a[1..], b[1..], c[1..]); }
  }

  ghost predicate Increasing(ks: seq<string>) {
    forall i, j :: 0 <= i < j < |ks| ==> Less(ks[i], ks[j])
  }

  function Insert(k: string, ks: seq<string>): seq<string> {
    if ks == [] then [k]
    else if Less(k, ks[0]) then [k] + ks
    else [ks[0]] + Insert(k, ks[1..])
  }

  function Elements(ks: seq<string>): set<string> {
    set k | k in ks
  }

  lemma {:induction false} InsertSorts(k: string, ks: seq<string>)
    requires Increasing(ks) && k !in ks
    ensures Increasing(Insert(k, ks)) && Elements(Insert(k, ks)) == Elements(ks) + {k}
  {
    if ks != [] {
      LessTrichotomy(k, ks[0]);
      if Less(k, ks[0]) {
        forall j | 0 < j < |ks| ensures Less(k, ks[j]) { LessTransitive(k, ks[0], ks[j]); }
      } else {
        var r := Insert(k, ks[1..]);
        InsertSorts(k, ks[1..]);
        forall j | 0 <= j < |r| ensures Less(ks[0], r[j]) {
          assert r[j] in Elements(r);
        }
        assert ks == [ks[0]] + ks[1..];
      }
    }
  }

  /** sort.Strings on keys that are all different. */
  function SortStrings(ks: seq<string>): seq<string> {
    if ks == [] then [] else Insert(ks[0], SortStrings(ks[1..]))
  }

  ghost predicate Distinct(ks: seq<string>) {
    forall i, j :: 0 <= i < j < |ks| ==> ks[i] != ks[j]
  }

  lemma {:induction false} SortStringsSorts(ks: seq<string>)
    requires Distinct(ks)
    ensures Increasing(SortStrings(ks)) && Elements(SortStrings(ks)) == Elements(ks)
  {
    if ks != [] {
      SortStringsSorts(ks[1..]);
      assert ks[0] !in ks[1..];
      assert ks[0] !in Elements(SortStrings(ks[1..]));
      InsertSorts(ks[0], SortStrings(ks[1..]));
      assert ks == [ks[0]] + ks[1..];
    }
  }

  lemma {:induction false} SortedOnce(a: seq<string>, b: seq<string>)
    requires Increasing(a) && Increasing(b) && Elements(a) == Elements(b)
    ensures a == b
  {
    assert a != [] ==> a[0] in Elements(b);
    assert b != [] ==> b[0] in Elements(a);
    if a != [] {
      SameLeast(a, b);
      TailElements(a);
      TailElements(b);
      SortedOnce(a[1..], b[1..]);
      assert a == [a[0]] + a[1..] && b == [b[0]] + b[1..];
    }
  }

  lemma SameLeast(a: seq<string>, b: seq<string>)
    requires Increasing(a) && Increasing(b) && a != [] && b != [] && a[0] in b && b[0] in a
    ensures a[0] == b[0]
  {
    LessTrichotomy(a[0], b[0]);
  }

  lemma TailElements(a: seq<string>)
    requires Increasing(a) && a != []
    ensures Elements(a[1..]) == Elements(a) - {a[0]}
  {
    LessTrichotomy(a[0], a[0]);
    assert a == [a[0]] + a[1..];
    assert a[0] !in a[1..];
  }

  /** The keys of an object in the order in which they are written. */
  ghost function SortedKeys(ks: set<string>): (r: seq<string>)
    ensures Increasing(r) && Elements(r) == ks
  {
    if ks == {} then []
    else
      var k :| k in ks;
      assert k !in Elements(SortedKeys(ks - {k}));
      InsertSorts(k, SortedKeys(ks - {k}));
      Insert(k, SortedKeys(ks - {k}))
  }
}
