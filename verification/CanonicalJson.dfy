/**
 Canonical JSON: the writer of internal/zero/canonical, a reader of JSON text, and the proof that
 reading what was written gives back the value.
 */
module CanonicalJson {
  import opened Options
  import opened CanonicalText

  const MAX_SAFE_INTEGER: int := 9007199254740991

  datatype Value =
    | Null
    | Bool(b: bool)
    | Int(n: int)
    | Str(s: string)
    | Arr(items: seq<Value>)
    | Obj(fields: map<string, Value>)

  /** Every integer in the value lies in the range that canonical JSON allows. */
  predicate Safe(v: Value) {
    match v
    case Int(n) => -MAX_SAFE_INTEGER <= n <= MAX_SAFE_INTEGER
    case Arr(items) => forall i :: 0 <= i < |items| ==> Safe(items[i])
    case Obj(fields) => forall k :: k in fields ==> Safe(fields[k])
    case _ => true
  }

  // ---- Writing -------------------------------------------------------------------------------

  ghost function Print(v: Value): string
    decreases v, 1, 0
  {
    match v
    case Null => "null"
    case Bool(b) => if b then "true" else "false"
    case Int(n) => FormatInt(n)
    case Str(s) => Quote(s)
    case Arr(items) => "[" + Items(v, 0) + "]"
    case Obj(fields) => "{" + Fields(v, SortedKeys(fields.Keys), 0) + "}"
  }

  /** The items from i on, with the comma that stands before all but the first. */
  ghost function Items(v: Value, i: nat): string
    requires v.Arr? && i <= |v.items|
    decreases v, 0, |v.items| - i
  {
    if i == |v.items| then "" else (if i > 0 then "," else "") + Print(v.items[i]) + Items(v, i + 1)
  }

  ghost function Fields(v: Value, ks: seq<string>, i: nat): string
    requires v.Obj? && Elements(ks) == v.fields.Keys && i <= |ks|
    decreases v, 0, |ks| - i
  {
    if i == |ks| then ""
    else
      assert ks[i] in Elements(ks);
      (if i > 0 then "," else "") + Quote(ks[i]) + ":" + Print(v.fields[ks[i]]) + Fields(v, ks, i + 1)
  }

  // ---- Reading -------------------------------------------------------------------------------

  function Skip(s: string): (r: string)
    ensures |r| <= |s|
  {
    if s != [] && (s[0] == ' ' || s[0] == '\t' || s[0] == '\n' || s[0] == '\r') then Skip(s[1..]) else s
  }

  predicate Begins(s: string, c: char) {
    s != [] && s[0] == c
  }

  /** A value at the front of s, and what follows it. */
  function ReadValue(s: string): (r: Option<(Value, string)>)
    ensures r.Some? ==> |r.value.1| < |s|
    decreases |s|, 0
  {
    if "null" <= s then Some((Null, s[4..]))
    else if "true" <= s then Some((Bool(true), s[4..]))
    else if "false" <= s then Some((Bool(false), s[5..]))
    else if Begins(s, '"') then
      match ReadString(s[1..])
      case None => None
      case Some((t, rest)) => Some((Str(t), rest))
    else if Begins(s, '[') then
      var t := Skip(s[1..]);
      if Begins(t, ']') then Some((Arr([]), t[1..]))
      else match ReadItems(t)
        case None => None
        case Some((items, rest)) => Some((Arr(items), rest))
    else if Begins(s, '{') then
      var t := Skip(s[1..]);
      if Begins(t, '}') then Some((Obj(map[]), t[1..]))
      else match ReadFields(t)
        case None => None
        case Some((fields, _, rest)) => Some((Obj(fields), rest))
    else match ReadInt(s)
      case None => None
      case Some((n, rest)) => Some((Int(n), rest))
  }

  /** Items up to and including the closing bracket. */
  function ReadItems(s: string): (r: Option<(seq<Value>, string)>)
    ensures r.Some? ==> |r.value.1| < |s|
    decreases |s|, 1
  {
    match ReadValue(s)
    case None => None
    case Some((v, t)) =>
      var u := Skip(t);
      if Begins(u, ']') then Some(([v], u[1..]))
      else if !Begins(u, ',') then None
      else match ReadItems(Skip(u[1..]))
        case None => None
        case Some((vs, rest)) => Some(([v] + vs, rest))
  }

  /** A key, a colon and a value. */
  function ReadField(s: string): (r: Option<(string, Value, string)>)
    ensures r.Some? ==> |r.value.2| < |s|
    decreases |s|, 1
  {
    if !Begins(s, '"') then None
    else match ReadString(s[1..])
      case None => None
      case Some((k, t)) =>
        var u := Skip(t);
        if !Begins(u, ':') then None
        else match ReadValue(Skip(u[1..]))
          case None => None
          case Some((v, rest)) => Some((k, v, rest))
  }

  /** Fields up to and including the closing brace, with their keys in order; of two with one key the later counts. */
  function ReadFields(s: string): (r: Option<(map<string, Value>, seq<string>, string)>)
    ensures r.Some? ==> |r.value.2| < |s|
    decreases |s|, 2
  {
    match ReadField(s)
    case None => None
    case Some((k, v, t)) =>
      var u := Skip(t);
      if Begins(u, '}') then Some((map[k := v], [k], u[1..]))
      else if !Begins(u, ',') then None
      else match ReadFields(Skip(u[1..]))
        case None => None
        case Some((fs, ks, rest)) => Some((map[k := v] + fs, [k] + ks, rest))
  }

  /** One value and nothing after it but white space. */
  function Parse(s: string): Option<Value> {
    match ReadValue(Skip(s))
    case None => None
    case Some((v, rest)) => if Skip(rest) == [] then Some(v) else None
  }

  // ---- Reading what was written --------------------------------------------------------------

  predicate Starts(c: char) {
    c in {'n', 't', 'f', '"', '[', '{', '-'} || IsDigit(c)
  }

  lemma PrintStarts(v: Value)
    ensures Print(v) != [] && Starts(Print(v)[0])
    ensures match v
            case Null => Print(v) == "null"
            case Bool(b) => Print(v) == if b then "true" else "false"
            case Int(n) => Print(v)[0] == '-' || IsDigit(Print(v)[0])
            case Str(_) => Print(v)[0] == '"'
            case Arr(_) => Print(v)[0] == '['
            case Obj(_) => Print(v)[0] == '{'
  {
  }

  lemma NothingToSkip(s: string)
    requires s == [] || Starts(s[0]) || s[0] in {',', ':', ']', '}'}
    ensures Skip(s) == s
  {
  }

  lemma {:induction false} ReadBack(v: Value, rest: string)
    requires Delimited(rest)
    ensures ReadValue(Print(v) + rest) == Some((v, rest))
    decreases v, 1, 0
  {
    match v
    case Null => LiteralReadBack("null", rest);
    case Bool(b) => LiteralReadBack(if b then "true" else "false", rest);
    case Int(n) => IntValueReadBack(n, rest);
    case Str(s) => StrValueReadBack(s, rest);
    case Arr(items) =>
      if items == [] {
        EmptyReadBack(rest);
        assert Print(v) == "[]";
      } else {
        ItemsReadBack(v, 0, rest);
        ArrReadBack(v, rest);
      }
    case Obj(fields) =>
      var ks := SortedKeys(fields.Keys);
      if ks == [] {
        NoKeys(fields.Keys);
        EmptyReadBack(rest);
        assert Print(v) == "{}";
      } else {
        FieldsReadBack(v, ks, 0, rest);
        ObjReadBack(v, ks, rest);
      }
  }

  lemma LiteralReadBack(s: string, rest: string)
    requires s in {"null", "true", "false"}
    ensures ReadValue(s + rest) == Some((if s == "null" then Null else Bool(s == "true"), rest))
  {
    hide ReadItems, ReadFields, ReadString, ReadInt;
    assert (s + rest)[..|s|] == s && (s + rest)[|s|..] == rest;
    assert s[0] == (s + rest)[0];
  }

  lemma IntValueReadBack(n: int, rest: string)
    requires Delimited(rest)
    ensures ReadValue(FormatInt(n) + rest) == Some((Int(n), rest))
  {
    hide ReadItems, ReadFields, ReadString, ReadInt, FormatInt;
    IntReadBack(n, rest);
    assert (FormatInt(n) + rest)[0] == FormatInt(n)[0];
  }

  lemma StrValueReadBack(s: string, rest: string)
    ensures ReadValue(Quote(s) + rest) == Some((Str(s), rest))
  {
    hide ReadItems, ReadFields, ReadString, ReadInt, EscapeAll;
    StringReadBack(s, rest);
    assert (Quote(s) + rest)[1..] == EscapeAll(s) + "\"" + rest;
    assert (Quote(s) + rest)[0] == '"';
  }

  lemma EmptyReadBack(rest: string)
    ensures ReadValue("[]" + rest) == Some((Arr([]), rest)) && ReadValue("{}" + rest) == Some((Obj(map[]), rest))
  {
    hide ReadItems, ReadFields, ReadString, ReadInt;
    assert ("[]" + rest)[1..] == "]" + rest && ("]" + rest)[1..] == rest;
    assert ("{}" + rest)[1..] == "}" + rest && ("}" + rest)[1..] == rest;
    NothingToSkip("]" + rest);
    NothingToSkip("}" + rest);
  }

  lemma NoKeys(ks: set<string>)
    requires SortedKeys(ks) == []
    ensures ks == {}
  {
  }

  // ---- Arrays ----

  /** The text from item i on to the end of the array, and beyond. */
  ghost function ItemsText(v: Value, i: nat, rest: string): string
    requires v.Arr? && i < |v.items|
  {
    Print(v.items[i]) + AfterItem(v, i, rest)
  }

  ghost function AfterItem(v: Value, i: nat, rest: string): string
    requires v.Arr? && i < |v.items|
  {
    Items(v, i + 1) + "]" + rest
  }

  lemma AfterItemIs(v: Value, i: nat, rest: string)
    requires v.Arr? && i < |v.items|
    ensures AfterItem(v, i, rest) == if i + 1 == |v.items| then "]" + rest else "," + ItemsText(v, i + 1, rest)
  {
  }

  lemma {:induction false} ItemsReadBack(v: Value, i: nat, rest: string)
    requires v.Arr? && i < |v.items|
    ensures ReadItems(ItemsText(v, i, rest)) == Some((v.items[i..], rest))
    decreases v, 0, |v.items| - i
  {
    hide Print, ReadValue, Items;
    var t := AfterItem(v, i, rest);
    AfterItemIs(v, i, rest);
    hide AfterItem;
    NothingToSkip(t);
    ReadBack(v.items[i], t);
    if i + 1 < |v.items| {
      var u := ItemsText(v, i + 1, rest);
      assert t[1..] == u;
      PrintStarts(v.items[i + 1]);
      assert u[0] == Print(v.items[i + 1])[0];
      NothingToSkip(u);
      ItemsReadBack(v, i + 1, rest);
      assert [v.items[i]] + v.items[i + 1..] == v.items[i..];
    } else {
      assert t[1..] == rest && [v.items[i]] == v.items[i..];
    }
  }

  lemma ArrReadBack(v: Value, rest: string)
    requires v.Arr? && v.items != [] && ReadItems(ItemsText(v, 0, rest)) == Some((v.items, rest))
    ensures ReadValue(Print(v) + rest) == Some((v, rest))
  {
    hide Print, ReadItems, ReadValue;
    PrintArr(v, rest);
    PrintStarts(v.items[0]);
    assert ItemsText(v, 0, rest)[0] == Print(v.items[0])[0];
    BracketReads(ItemsText(v, 0, rest), v.items, rest);
  }

  lemma PrintArr(v: Value, rest: string)
    requires v.Arr? && v.items != []
    ensures Print(v) + rest == "[" + ItemsText(v, 0, rest)
  {
  }

  lemma BracketReads(t: string, items: seq<Value>, rest: string)
    requires t != [] && Starts(t[0]) && ReadItems(t) == Some((items, rest))
    ensures ReadValue("[" + t) == Some((Arr(items), rest))
  {
    hide ReadItems, ReadFields, ReadString, ReadInt;
    assert ("[" + t)[1..] == t && ("[" + t)[0] == '[';
    NothingToSkip(t);
  }

  lemma BraceReads(t: string, fields: map<string, Value>, rest: string)
    requires t != [] && Starts(t[0]) && ReadFields(t).Some?
    requires ReadFields(t).value.0 == fields && ReadFields(t).value.2 == rest
    ensures ReadValue("{" + t) == Some((Obj(fields), rest))
  {
    hide ReadItems, ReadFields, ReadString, ReadInt;
    assert ("{" + t)[1..] == t && ("{" + t)[0] == '{';
    NothingToSkip(t);
  }

  // ---- Objects ----

  ghost function FieldText(v: Value, k: string, after: string): string
    requires v.Obj? && k in v.fields
  {
    Quote(k) + (":" + (Print(v.fields[k]) + after))
  }

  ghost function FieldsText(v: Value, ks: seq<string>, i: nat, rest: string): string
    requires v.Obj? && Elements(ks) == v.fields.Keys && i < |ks|
  {
    assert ks[i] in Elements(ks);
    FieldText(v, ks[i], AfterField(v, ks, i, rest))
  }

  ghost function AfterField(v: Value, ks: seq<string>, i: nat, rest: string): string
    requires v.Obj? && Elements(ks) == v.fields.Keys && i < |ks|
  {
    Fields(v, ks, i + 1) + "}" + rest
  }

  lemma AfterFieldIs(v: Value, ks: seq<string>, i: nat, rest: string)
    requires v.Obj? && Elements(ks) == v.fields.Keys && i < |ks|
    ensures AfterField(v, ks, i, rest) == if i + 1 == |ks| then "}" + rest else "," + FieldsText(v, ks, i + 1, rest)
  {
  }

  lemma FieldReadBack(v: Value, k: string, after: string)
    requires v.Obj? && k in v.fields && ReadValue(Print(v.fields[k]) + after) == Some((v.fields[k], after))
    ensures ReadField(FieldText(v, k, after)) == Some((k, v.fields[k], after))
  {
    hide Print, ReadValue, ReadString, EscapeAll;
    var p := Print(v.fields[k]) + after;
    var s := FieldText(v, k, after);
    assert s[1..] == EscapeAll(k) + "\"" + (":" + p);
    StringReadBack(k, ":" + p);
    assert (":" + p)[1..] == p;
    PrintStarts(v.fields[k]);
    assert p[0] == Print(v.fields[k])[0];
    NothingToSkip(p);
    NothingToSkip(":" + p);
  }

  /** The fields whose keys stand at i or later. */
  ghost function FieldsFrom(v: Value, ks: seq<string>, i: nat): map<string, Value>
    requires v.Obj? && Elements(ks) == v.fields.Keys && i <= |ks|
  {
    map k | k in Elements(ks[i..]) && k in v.fields :: v.fields[k]
  }

  lemma FieldsFromStep(v: Value, ks: seq<string>, i: nat)
    requires v.Obj? && Elements(ks) == v.fields.Keys && i < |ks|
    ensures ks[i] in v.fields && FieldsFrom(v, ks, i) == map[ks[i] := v.fields[ks[i]]] + FieldsFrom(v, ks, i + 1)
    ensures FieldsFrom(v, ks, |ks|) == map[] && FieldsFrom(v, ks, 0) == v.fields
  {
  }

  lemma {:induction false} FieldsReadBack(v: Value, ks: seq<string>, i: nat, rest: string)
    requires v.Obj? && Elements(ks) == v.fields.Keys && i < |ks|
    ensures ReadFields(FieldsText(v, ks, i, rest)) == Some((FieldsFrom(v, ks, i), ks[i..], rest))
    decreases v, 0, |ks| - i
  {
    hide Print, Quote, ReadValue, Fields, ReadField, FieldText, FieldsFrom;
    var t := AfterField(v, ks, i, rest);
    AfterFieldIs(v, ks, i, rest);
    FieldsFromStep(v, ks, i);
    hide AfterField;
    NothingToSkip(t);
    ReadBack(v.fields[ks[i]], t);
    FieldReadBack(v, ks[i], t);
    if i + 1 < |ks| {
      var u := FieldsText(v, ks, i + 1, rest);
      assert t[1..] == u;
      FieldStarts(v, ks, i + 1, rest);
      NothingToSkip(u);
      FieldsReadBack(v, ks, i + 1, rest);
      assert [ks[i]] + ks[i + 1..] == ks[i..];
    } else {
      assert t[1..] == rest && [ks[i]] == ks[i..];
      assert FieldsFrom(v, ks, i) == map[ks[i] := v.fields[ks[i]]];
    }
  }

  lemma FieldStarts(v: Value, ks: seq<string>, i: nat, rest: string)
    requires v.Obj? && Elements(ks) == v.fields.Keys && i < |ks|
    ensures FieldsText(v, ks, i, rest) != [] && FieldsText(v, ks, i, rest)[0] == '"'
  {
  }

  lemma ObjReadBack(v: Value, ks: seq<string>, rest: string)
    requires v.Obj? && ks == SortedKeys(v.fields.Keys) && ks != []
    requires ReadFields(FieldsText(v, ks, 0, rest)) == Some((FieldsFrom(v, ks, 0), ks[0..], rest))
    ensures ReadValue(Print(v) + rest) == Some((v, rest))
  {
    hide ReadFields, ReadValue, FieldsText, Fields;
    FieldsZero(v, ks, rest);
    assert Print(v) == "{" + Fields(v, ks, 0) + "}";
    FieldStarts(v, ks, 0, rest);
    FieldsFromStep(v, ks, 0);
    BraceReads(FieldsText(v, ks, 0, rest), v.fields, rest);
  }

  lemma FieldsZero(v: Value, ks: seq<string>, rest: string)
    requires v.Obj? && Elements(ks) == v.fields.Keys && ks != []
    ensures "{" + Fields(v, ks, 0) + "}" + rest == "{" + FieldsText(v, ks, 0, rest)
  {
    hide Print, Quote;
    assert ks[0] in Elements(ks);
    var k, p, q := Quote(ks[0]), Print(v.fields[ks[0]]), Fields(v, ks, 1);
    assert Fields(v, ks, 0) == k + ":" + p + q;
    assert "{" + (k + ":" + p + q) + "}" + rest == "{" + (k + (":" + (p + (q + "}" + rest))));
  }

  // ---- What follows --------------------------------------------------------------------------

  /** Parsing what was printed gives the value back. */
  lemma ParsePrint(v: Value)
    ensures Parse(Print(v)) == Some(v)
  {
    hide Print, ReadValue;
    PrintStarts(v);
    NothingToSkip(Print(v));
    ReadBack(v, "");
    assert Print(v) + "" == Print(v);
  }

  /** The keys of every object stand in increasing order in its text, each once. */
  lemma KeysInOrder(v: Value, rest: string) returns (ks: seq<string>)
    requires v.Obj? && v.fields != map[]
    ensures Increasing(ks) && Elements(ks) == v.fields.Keys
    ensures Begins(Print(v), '{') && ReadFields((Print(v) + rest)[1..]) == Some((v.fields, ks, rest))
  {
    ks := SortedKeys(v.fields.Keys);
    if ks == [] { NoKeys(v.fields.Keys); }
    hide ReadFields, FieldsText, Fields;
    FieldsReadBack(v, ks, 0, rest);
    FieldsFromStep(v, ks, 0);
    FieldsZero(v, ks, rest);
    assert Print(v) == "{" + Fields(v, ks, 0) + "}";
    assert (Print(v) + rest)[1..] == FieldsText(v, ks, 0, rest) && ks[0..] == ks;
  }

  /** Different values never share their bytes. */
  lemma PrintInjective(v: Value, w: Value)
    requires Print(v) == Print(w)
    ensures v == w
  {
    hide Print, Parse;
    ParsePrint(v);
    ParsePrint(w);
  }

  /** The error is for integers out of range, and for nothing else. */
  ghost function Marshal(v: Value): Option<string> {
    if Safe(v) then Some(Print(v)) else None
  }

  ghost function Canonical(s: string): Option<string> {
    match Parse(s)
    case None => None
    case Some(v) => Marshal(v)
  }

  /** Canonical text is its own canonical form, and two texts have one form exactly when they mean one value. */
  lemma CanonicalTwice(s: string, t: string)
    requires Canonical(s).Some? && Canonical(t).Some?
    ensures Canonical(Canonical(s).value) == Canonical(s)
    ensures Canonical(s) == Canonical(t) <==> Parse(s) == Parse(t)
  {
    hide Print, Parse;
    var v, w := Parse(s).value, Parse(t).value;
    ParsePrint(v);
    if Print(v) == Print(w) { PrintInjective(v, w); }
  }
}
