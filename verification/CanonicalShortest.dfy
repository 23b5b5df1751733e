/**
 The canonical form among all JSON texts of a value: no text that reads as the value is shorter, and the
 characters of strings have one canonical literal each (internal/zero/canonical).
 */
module CanonicalShortest {
  import opened Options
  import opened CanonicalText
  import opened CanonicalJson

  // ---- Characters ----------------------------------------------------------------------------------

  /** Inside a string, e is a literal of the character c, whatever follows. */
  ghost predicate LiteralOf(e: string, c: char) {
    forall rest :: ReadChar(e + rest) == Some((c, rest))
  }

  predicate LowerHex(c: char) {
    '0' <= c <= '9' || 'a' <= c <= 'f'
  }

  /** A literal reads as its character with nothing after it. */
  lemma LiteralReads(e: string, c: char)
    requires LiteralOf(e, c)
    ensures ReadChar(e) == Some((c, [])) && e != []
  {
    assert e + [] == e;
    assert ReadChar(e + []) == Some((c, []));
  }

  /** A character that stands for itself has one literal of length one, and the others none. */
  lemma OneLong(e: string, c: char)
    requires ReadChar(e) == Some((c, []))
    ensures |e| == 1 ==> e == [c] && c >= ' ' && c != '"' && c != '\\'
    ensures |e| == 2 ==> e[0] == '\\' && Unescaped(e[1]) == Some(c)
    ensures |e| > 1 ==> |e| == 2 || |e| >= 6
  {
    assert |e[1..]| == |e| - 1 && (|e| > 1 ==> |e[2..]| == |e| - 2);
    assert |e| > 1 && e[0] == '\\' && e[1] == 'u' ==> Hex4(e[2..]).Some?;
  }

  /** Six characters read as the code unit that their hex digits give. */
  lemma SixLong(e: string, c: char)
    requires |e| == 6 && ReadChar(e) == Some((c, []))
    ensures e[0] == '\\' && e[1] == 'u' && Hex4(e[2..]).Some?
    ensures c < ' ' ==> Hex4(e[2..]) == Some(c as int)
  {
    assert |e[1..]| == 5 && |e[2..]| == 4;
  }

  lemma LowerHexOnce(a: char, b: char)
    requires LowerHex(a) && LowerHex(b) && HexValue(a) == HexValue(b)
    ensures a == b
  {
    if IsDigit(a) && IsDigit(b) { assert a == Digit(DigitValue(a)) && b == Digit(DigitValue(b)); }
  }

  lemma Base16Once(a: nat, b: nat, c: nat, d: nat, a': nat, b': nat, c': nat, d': nat)
    requires b < 16 && c < 16 && d < 16 && b' < 16 && c' < 16 && d' < 16
    requires a * 4096 + b * 256 + c * 16 + d == a' * 4096 + b' * 256 + c' * 16 + d'
    ensures a == a' && b == b' && c == c' && d == d'
  {
  }

  lemma Hex4Once(s: string, t: string)
    requires |s| == 4 && |t| == 4 && Hex4(s).Some? && Hex4(s) == Hex4(t)
    requires forall i :: 0 <= i < 4 ==> LowerHex(s[i]) && LowerHex(t[i])
    ensures s == t
  {
    Base16Once(HexValue(s[0]).value, HexValue(s[1]).value, HexValue(s[2]).value, HexValue(s[3]).value,
        HexValue(t[0]).value, HexValue(t[1]).value, HexValue(t[2]).value, HexValue(t[3]).value);
    hide HexValue;
    forall i | 0 <= i < 4 ensures s[i] == t[i] { LowerHexOnce(s[i], t[i]); }
  }

  /** The hex digits are those of the code, in lower case. */
  lemma EscapeForm(c: char)
    ensures |Escape(c)| in {1, 2, 6}
    ensures |Escape(c)| == 6 ==> c < ' ' && forall i :: 2 <= i < 6 ==> LowerHex(Escape(c)[i])
    ensures |Escape(c)| == 1 ==> Escape(c) == [c]
    ensures |Escape(c)| == 2 ==> Escape(c)[0] == '\\' && Unescaped(Escape(c)[1]) == Some(c)
    ensures |Escape(c)| > 1 ==> c < ' ' || c == '"' || c == '\\'
    ensures |Escape(c)| == 6 ==> forall a :: Unescaped(a) != Some(c)
  {
  }

  /**
   The writer's literal of a character is a shortest one, and the only one of its length whose hex digits
   are in lower case.
   */
  lemma EscapeIsCanonical(c: char, e: string)
    requires LiteralOf(e, c)
    ensures LiteralOf(Escape(c), c) && |Escape(c)| <= |e|
    ensures |e| == |Escape(c)| && (|e| == 6 ==> forall i :: 2 <= i < 6 ==> LowerHex(e[i])) ==> e == Escape(c)
  {
    hide ReadChar, Escape, Unescaped, LowerHex;
    forall rest ensures ReadChar(Escape(c) + rest) == Some((c, rest)) { CharReadBack(c, rest); }
    LiteralReads(e, c);
    LiteralReads(Escape(c), c);
    OneLong(e, c);
    EscapeForm(c);
    TwoOnce(c);
    if |e| == |Escape(c)| == 6 && forall i :: 2 <= i < 6 ==> LowerHex(e[i]) { SixOnce(e, Escape(c), c); }
  }

  lemma TwoOnce(c: char)
    ensures forall a, b :: Unescaped(a) == Some(c) && Unescaped(b) == Some(c) ==> a == b
  {
  }

  lemma SixOnce(e: string, f: string, c: char)
    requires |e| == 6 && |f| == 6 && ReadChar(e) == ReadChar(f) == Some((c, [])) && c < ' '
    requires forall i :: 2 <= i < 6 ==> LowerHex(e[i]) && LowerHex(f[i])
    ensures e == f
  {
    hide ReadChar, Hex4;
    SixLong(e, c);
    SixLong(f, c);
    Hex4Once(e[2..], f[2..]);
    assert e == e[..2] + e[2..] && f == f[..2] + f[2..];
    assert e[..2] == f[..2];
  }

  /** a and b first differ at k, where a ends or has the smaller code point. */
  ghost predicate DecidedAt(a: string, b: string, k: nat) {
    k <= |a| && k < |b| && a[..k] == b[..k] && (k == |a| || a[k] < b[k])
  }

  lemma DecidedLater(a: string, b: string, k: nat)
    requires DecidedAt(a, b, k) && k > 0
    ensures a != [] && b != [] && a[0] == b[0] && DecidedAt(a[1..], b[1..], k - 1)
  {
    assert a[0] == a[..k][0] == b[..k][0] == b[0];
    assert a[1..][..k - 1] == a[..k][1..] && b[1..][..k - 1] == b[..k][1..];
  }

  lemma DecidedSooner(a: string, b: string, k: nat)
    requires a != [] && b != [] && a[0] == b[0] && DecidedAt(a[1..], b[1..], k)
    ensures DecidedAt(a, b, k + 1)
  {
    assert a[..k + 1] == [a[0]] + a[1..][..k] && b[..k + 1] == [b[0]] + b[1..][..k];
  }

  /** Keys are ordered by code points at their first difference, a prefix coming first. */
  lemma {:induction false} LessIff(a: string, b: string)
    ensures Less(a, b) <==> exists k :: DecidedAt(a, b, k)
  {
    if a != [] && b != [] && a[0] == b[0] {
      LessIff(a[1..], b[1..]);
      if k :| DecidedAt(a[1..], b[1..], k) { DecidedSooner(a, b, k); }
    } else {
      assert a[..0] == b[..0];
      if Less(a, b) { assert DecidedAt(a, b, 0); }
    }
    if k :| DecidedAt(a, b, k) {
      if k > 0 { DecidedLater(a, b, k); }
    }
  }

  // ---- Whole texts -----------------------------------------------------------------------------------

  lemma CharLong(s: string)
    requires ReadChar(s).Some?
    ensures |Escape(ReadChar(s).value.0)| <= |s| - |ReadChar(s).value.1|
  {
  }

  lemma {:induction false} StringLong(s: string)
    requires ReadString(s).Some?
    ensures |EscapeAll(ReadString(s).value.0)| + 1 <= |s| - |ReadString(s).value.1|
    decreases |s|
  {
    hide ReadChar, Escape;
    if s[0] != '"' {
      CharLong(s);
      var (c, rest) := ReadChar(s).value;
      StringLong(rest);
      var cs := ReadString(rest).value.0;
      assert ([c] + cs)[0] == c && ([c] + cs)[1..] == cs;
    }
  }

  lemma {:induction false} DecimalLong(ds: string)
    requires ds != [] && forall i :: 0 <= i < |ds| ==> IsDigit(ds[i])
    ensures |Decimal(ValueOf(ds))| <= |ds|
  {
    if |ds| > 1 {
      var init, d := ds[..|ds| - 1], DigitValue(ds[|ds| - 1]);
      DecimalLong(init);
      assert (10 * ValueOf(init) + d) / 10 == ValueOf(init);
    } else {
      assert ValueOf(ds[..0]) == 0;
    }
  }

  lemma IntLong(s: string)
    requires ReadInt(s).Some?
    ensures |FormatInt(ReadInt(s).value.0)| <= |s| - |ReadInt(s).value.1|
  {
    hide Decimal, ValueOf;
    var t := if s[0] == '-' then s[1..] else s;
    DecimalLong(t[..Leading(t)]);
    DecimalZero();
  }

  lemma DecimalZero()
    ensures |Decimal(0)| == 1
  {
  }

  /** What items take, each with the comma or bracket behind it. */
  ghost function ItemsCost(vs: seq<Value>): nat {
    if vs == [] then 0 else |Print(vs[0])| + 1 + ItemsCost(vs[1..])
  }

  lemma {:induction false} ItemsLength(v: Value, i: nat)
    requires v.Arr? && i <= |v.items|
    ensures |Items(v, i)| + (if i == 0 && v.items != [] then 1 else 0) == ItemsCost(v.items[i..])
    decreases |v.items| - i
  {
    if i < |v.items| {
      ItemsLength(v, i + 1);
      assert v.items[i..][0] == v.items[i] && v.items[i..][1..] == v.items[i + 1..];
    }
  }

  lemma ArrLength(vs: seq<Value>)
    ensures |Print(Arr(vs))| == if vs == [] then 2 else 1 + ItemsCost(vs)
  {
    ItemsLength(Arr(vs), 0);
    assert vs[0..] == vs;
  }

  ghost function FieldCost(k: string, v: Value): nat {
    |Quote(k)| + 1 + |Print(v)| + 1
  }

  /** What fields take in this order of keys, each with the comma or brace behind it. */
  ghost function FieldsCost(m: map<string, Value>, ks: seq<string>): nat
    requires forall k :: k in ks ==> k in m
  {
    if ks == [] then 0 else FieldCost(ks[0], m[ks[0]]) + FieldsCost(m, ks[1..])
  }

  lemma {:induction false} FieldsLength(v: Value, ks: seq<string>, i: nat)
    requires v.Obj? && Elements(ks) == v.fields.Keys && i <= |ks|
    ensures forall k :: k in ks[i..] ==> k in v.fields
    ensures |Fields(v, ks, i)| + (if i == 0 && ks != [] then 1 else 0) == FieldsCost(v.fields, ks[i..])
    decreases |ks| - i
  {
    hide Print, Quote;
    assert forall k :: k in ks ==> k in Elements(ks);
    if i < |ks| {
      FieldsLength(v, ks, i + 1);
      assert ks[i..][0] == ks[i] && ks[i..][1..] == ks[i + 1..];
    }
  }

  /** What the fields of a map take. */
  ghost function MapCost(m: map<string, Value>): nat {
    assert forall k :: k in SortedKeys(m.Keys) ==> k in Elements(SortedKeys(m.Keys));
    FieldsCost(m, SortedKeys(m.Keys))
  }

  lemma ObjLength(m: map<string, Value>)
    ensures |Print(Obj(m))| == if m == map[] then 2 else 1 + MapCost(m)
  {
    hide SortedKeys, Fields;
    var ks := SortedKeys(m.Keys);
    FieldsLength(Obj(m), ks, 0);
    assert ks[0..] == ks;
    if ks == [] {
      NoKeys(m.Keys);
      assert m == map[];
    } else {
      assert ks[0] in Elements(ks);
    }
  }

  lemma {:induction false} SameCost(m: map<string, Value>, m': map<string, Value>, ks: seq<string>)
    requires forall k :: k in ks ==> k in m && k in m' && m[k] == m'[k]
    ensures FieldsCost(m, ks) == FieldsCost(m', ks)
  {
    if ks != [] { SameCost(m, m', ks[1..]); }
  }

  lemma {:induction false} InsertCost(m: map<string, Value>, k: string, ks: seq<string>)
    requires k in m && forall j :: j in ks ==> j in m
    ensures forall j :: j in Insert(k, ks) ==> j in m
    ensures FieldsCost(m, Insert(k, ks)) == FieldCost(k, m[k]) + FieldsCost(m, ks)
  {
    hide FieldCost, Less;
    if ks != [] && !Less(k, ks[0]) {
      InsertCost(m, k, ks[1..]);
      var r := Insert(k, ks[1..]);
      assert ([ks[0]] + r)[1..] == r;
    } else {
      assert ([k] + ks)[1..] == ks;
    }
  }

  /** One more field, which counts only if its key is not among the others. */
  lemma MoreCost(k: string, v: Value, m: map<string, Value>)
    ensures MapCost(map[k := v] + m) <= FieldCost(k, v) + MapCost(m)
  {
    hide FieldCost, FieldsCost, SortedKeys, Less;
    var m' := map[k := v] + m;
    if k in m {
      assert m' == m;
    } else {
      var ks := SortedKeys(m.Keys);
      assert k !in ks by { assert k !in Elements(ks); }
      InsertSorts(k, ks);
      assert m'.Keys == m.Keys + {k};
      SortedOnce(Insert(k, ks), SortedKeys(m'.Keys));
      assert forall j :: j in ks ==> j in Elements(ks);
      InsertCost(m', k, ks);
      SameCost(m, m', ks);
    }
  }

  lemma OneCost(k: string, v: Value)
    ensures MapCost(map[k := v]) == FieldCost(k, v)
  {
    hide FieldCost, SortedKeys;
    var m := map[k := v];
    assert Elements([k]) == m.Keys;
    SortedOnce([k], SortedKeys(m.Keys));
    assert [k][1..] == [] && [k][0] == k;
    assert FieldsCost(m, [k]) == FieldCost(k, m[k]);
  }

  /** A text that reads as a value is at least as long as the value's canonical form. */
  lemma {:induction false} ValueLong(s: string)
    requires ReadValue(s).Some?
    ensures |Print(ReadValue(s).value.0)| <= |s| - |ReadValue(s).value.1|
    decreases |s|, 0
  {
    hide Print, ReadString, ReadItems, ReadFields, ReadInt, EscapeAll, MapCost, ItemsCost;
    PrintForms(ReadValue(s).value.0);
    if "null" <= s || "true" <= s || "false" <= s {
    } else if Begins(s, '"') {
      StringLong(s[1..]);
    } else if Begins(s, '[') {
      var t := Skip(s[1..]);
      ArrLength(ReadValue(s).value.0.items);
      if !Begins(t, ']') { ItemsLong(t); }
    } else if Begins(s, '{') {
      var t := Skip(s[1..]);
      ObjLength(ReadValue(s).value.0.fields);
      if !Begins(t, '}') { FieldsLong(t); }
    } else {
      IntLong(s);
    }
  }

  lemma PrintForms(v: Value)
    ensures match v
            case Null => |Print(v)| == 4
            case Bool(b) => |Print(v)| == if b then 4 else 5
            case Int(n) => Print(v) == FormatInt(n)
            case Str(t) => |Print(v)| == |EscapeAll(t)| + 2
            case _ => true
  {
  }

  lemma {:induction false} ItemsLong(s: string)
    requires ReadItems(s).Some?
    ensures ReadItems(s).value.0 != [] && ItemsCost(ReadItems(s).value.0) <= |s| - |ReadItems(s).value.1|
    decreases |s|, 1
  {
    hide Print, ReadValue;
    ValueLong(s);
    var (v, t) := ReadValue(s).value;
    var u := Skip(t);
    if Begins(u, ']') {
      assert [v][1..] == [];
    } else {
      ItemsLong(Skip(u[1..]));
      var vs := ReadItems(Skip(u[1..])).value.0;
      assert ([v] + vs)[1..] == vs;
    }
  }

  lemma {:induction false} FieldsLong(s: string)
    requires ReadFields(s).Some?
    ensures ReadFields(s).value.0 != map[] && MapCost(ReadFields(s).value.0) <= |s| - |ReadFields(s).value.2|
    decreases |s|, 2
  {
    hide Print, ReadField, MapCost;
    FieldLong(s);
    var (k, v, t) := ReadField(s).value;
    var u := Skip(t);
    hide FieldCost;
    if Begins(u, '}') {
      OneCost(k, v);
      assert k in map[k := v];
    } else {
      FieldsLong(Skip(u[1..]));
      var fs := ReadFields(Skip(u[1..])).value.0;
      MoreCost(k, v, fs);
      assert k in map[k := v] + fs;
    }
  }

  lemma FieldLong(s: string)
    requires ReadField(s).Some?
    ensures FieldCost(ReadField(s).value.0, ReadField(s).value.1) - 1 <= |s| - |ReadField(s).value.2|
    decreases |s|, 1
  {
    hide Print, ReadValue, ReadString, EscapeAll;
    StringLong(s[1..]);
    var u := Skip(ReadString(s[1..]).value.1);
    ValueLong(Skip(u[1..]));
  }

  /** The canonical form is a shortest JSON text of its value. */
  lemma CanonicalIsShortest(text: string)
    requires Parse(text).Some?
    ensures Parse(Print(Parse(text).value)) == Parse(text) && |Print(Parse(text).value)| <= |text|
  {
    hide ReadValue, Print;
    ValueLong(Skip(text));
    ParsePrint(Parse(text).value);
  }
}
