/**
 The Go values that the canonical writer dispatches on, and the JSON value each of them means
 (internal/zero/canonical).
 */
module GoValues {
  import opened Options
  import opened CanonicalText
  import opened CanonicalJson

  datatype Float = NaN | Inf | Finite(r: real)

  /** Typed maps, slices and pointers are read by reflection and treated as the plain ones. */
  datatype GoValue =
    | Nil
    | Boolean(b: bool)
    | Float64(f: Float)
    | Number(text: string)
    | Signed(n: int)
    | Unsigned(u: nat)
    | Text(s: string)
    | Slice(items: seq<GoValue>)
    | Table(entries: map<string, GoValue>)
    | Struct(fields: seq<Field>)
    | Pointer(to: Option<GoValue>)
    | Unsupported(empty: bool)

  /** A struct field; boxed when its declared type is an interface. */
  datatype Field = Field(name: string, exported: bool, tag: string, boxed: bool, value: GoValue)

  // ---- Numbers ---------------------------------------------------------------------------------

  function WholePart(f: Float): Option<int> {
    if f.Finite? && f.r.Floor as real == f.r then Some(f.r.Floor) else None
  }

  predicate AllDigits(s: string) {
    s != [] && Leading(s) == |s|
  }

  /** An optional sign and decimal digits; needless zeros are allowed, fractions and exponents are not. */
  function ReadBig(s: string): Option<int> {
    if s != [] && (s[0] == '-' || s[0] == '+') then
      if !AllDigits(s[1..]) then None
      else var n: int := ValueOf(s[1..]); Some(if s[0] == '-' then -n else n)
    else if !AllDigits(s) then None
    else Some(ValueOf(s))
  }

  lemma BigReadBack(n: int)
    ensures ReadBig(FormatInt(n)) == Some(n)
  {
    hide Decimal, ValueOf;
    var d := if n < 0 then Decimal(-n) else Decimal(n);
    DecimalValue(if n < 0 then -n else n);
    LeadingAll(d, "");
    assert d + "" == d;
    if n < 0 { assert FormatInt(n)[1..] == d; }
  }

  // ---- Structs -----------------------------------------------------------------------------------

  /** What stands before the first comma, and what stands after it. */
  function Cut(s: string): (string, Option<string>) {
    if s == [] then ("", None)
    else if s[0] == ',' then ("", Some(s[1..]))
    else var (head, rest) := Cut(s[1..]); ([s[0]] + head, rest)
  }

  predicate Empty(f: Field) {
    if f.boxed then f.value.Nil?
    else match f.value
      case Boolean(b) => !b
      case Float64(x) => x == Finite(0.0)
      case Number(text) => text == ""
      case Signed(n) => n == 0
      case Unsigned(u) => u == 0
      case Text(s) => s == ""
      case Slice(items) => items == []
      case Table(entries) => entries == map[]
      case Pointer(to) => to.None?
      case Unsupported(empty) => empty
      case Nil => true
      case Struct(_) => false
  }

  /** The key under which a field is written, or None when it is left out. */
  function KeyOf(f: Field): Option<string> {
    var (head, options) := Cut(f.tag);
    if !f.exported || head == "-" || (options.Some? && Cut(options.value).0 == "omitempty" && Empty(f)) then None
    else Some(if head != "" then head else f.name)
  }

  /** structToMap: later fields replace earlier ones of the same key. */
  function Named(fields: seq<Field>): (m: map<string, GoValue>)
    ensures forall k :: k in m ==> exists i :: 0 <= i < |fields| && m[k] == fields[i].value
  {
    if fields == [] then map[]
    else
      var m, last := Named(fields[..|fields| - 1]), fields[|fields| - 1];
      match KeyOf(last)
      case None => m
      case Some(k) => m[k := last.value]
  }

  // ---- What a value means ------------------------------------------------------------------------

  /** The JSON value, or None where the writer has no form for some part. */
  function Meaning(v: GoValue): Option<Value>
    decreases v, 1
  {
    match v
    case Nil => Some(Null)
    case Boolean(b) => Some(Bool(b))
    case Float64(f) => if WholePart(f).Some? then Some(Int(WholePart(f).value)) else None
    case Number(text) => if ReadBig(text).Some? then Some(Int(ReadBig(text).value)) else None
    case Signed(n) => Some(Int(n))
    case Unsigned(u) => Some(Int(u))
    case Text(s) => Some(Str(s))
    case Slice(items) => ListMeaning(v, items)
    case Table(entries) => TableMeaning(v, entries)
    case Struct(fields) => TableMeaning(v, Named(fields))
    case Pointer(to) => if to.None? then Some(Null) else Meaning(to.value)
    case Unsupported(_) => None
  }

  function ListMeaning(v: GoValue, items: seq<GoValue>): Option<Value>
    requires forall i :: 0 <= i < |items| ==> items[i] < v
    decreases v, 0
  {
    if forall i :: 0 <= i < |items| ==> Meaning(items[i]).Some?
    then Some(Arr(seq(|items|, i requires 0 <= i < |items| => assert items[i] < v; Meaning(items[i]).value)))
    else None
  }

  function TableMeaning(v: GoValue, entries: map<string, GoValue>): Option<Value>
    requires forall k :: k in entries ==> entries[k] < v
    decreases v, 0
  {
    if forall k :: k in entries ==> Meaning(entries[k]).Some?
    then Some(Obj(map k | k in entries :: assert entries[k] < v; Meaning(entries[k]).value))
    else None
  }

  predicate Writable(v: GoValue) {
    Meaning(v).Some? && Safe(Meaning(v).value)
  }

  function WholeFloat(n: int): Float {
    Finite(n as real)
  }

  /** However a whole number is held, it means the same; of floats only whole ones mean anything. */
  lemma NumbersAgree(n: int, f: Float)
    ensures Meaning(Signed(n)) == Meaning(Float64(WholeFloat(n))) == Meaning(Number(FormatInt(n))) == Some(Int(n))
    ensures n >= 0 ==> Meaning(Unsigned(n)) == Meaning(Number("+" + FormatInt(n))) == Some(Int(n))
    ensures Meaning(Float64(f)).Some? <==> exists m :: f == WholeFloat(m)
  {
    BigReadBack(n);
    if n >= 0 { PlusReads(n); }
    if Meaning(Float64(f)).Some? { assert f == WholeFloat(f.r.Floor); }
  }

  lemma PlusReads(n: nat)
    ensures ReadBig("+" + FormatInt(n)) == Some(n)
  {
    hide Decimal, ValueOf;
    DecimalValue(n);
    LeadingAll(Decimal(n), "");
    assert Decimal(n) + "" == Decimal(n) && ("+" + Decimal(n))[1..] == Decimal(n);
  }

  function PointerTo(v: Option<GoValue>, depth: nat): GoValue {
    Pointer(if depth == 0 then v else Some(PointerTo(v, depth - 1)))
  }

  /** However many pointers lead to it, a value means what it means by itself; nothing at their end means null. */
  lemma {:induction false} PointersMean(v: Option<GoValue>, depth: nat)
    ensures Meaning(PointerTo(v, depth)) == if v.Some? then Meaning(v.value) else Some(Null)
  {
    if depth > 0 { PointersMean(v, depth - 1); }
  }

  /** The values that omitempty leaves out. */
  predicate Zero(v: Value) {
    match v
    case Null => true
    case Bool(b) => !b
    case Int(n) => n == 0
    case Str(s) => s == ""
    case Arr(items) => items == []
    case Obj(fields) => fields == map[]
  }

  /** A field counts as empty exactly when what it means is the zero value of its kind. */
  lemma EmptyIff(f: Field)
    requires !f.boxed && !f.value.Number? && !f.value.Struct? && !f.value.Pointer? && !f.value.Unsupported?
    ensures Empty(f) <==> Meaning(f.value).Some? && Zero(Meaning(f.value).value)
  {
    match f.value
    case Table(entries) =>
      assert Meaning(f.value) == TableMeaning(f.value, entries);
      var whole := TableMeaning(f.value, entries);
      if whole.Some? { assert whole.value.fields.Keys == entries.Keys; }
    case _ =>
  }

  lemma {:induction false} CutAt(head: string, rest: string)
    requires ',' !in head
    ensures Cut(head) == (head, None) && Cut(head + "," + rest) == (head, Some(rest))
  {
    if head == [] {
      assert head + "," + rest == "," + rest && ("," + rest)[1..] == rest;
    } else {
      CutAt(head[1..], rest);
      assert head == [head[0]] + head[1..];
      assert (head + "," + rest)[1..] == head[1..] + "," + rest;
    }
  }

  /**
   A tag names the key unless it is empty, in which case the field's own name does; a dash leaves the field
   out, and so does omitempty as the first option of an empty field.
   */
  lemma TagMeans(f: Field, head: string, option: string, more: string)
    requires f.exported && ',' !in head && ',' !in option
    ensures f.tag in {head, head + "," + option, head + "," + (option + "," + more)} ==>
              var left := head == "-" || (f.tag != head && option == "omitempty" && Empty(f));
              KeyOf(f) == if left then None else Some(if head == "" then f.name else head)
  {
    CutAt(head, option);
    CutAt(head, option + "," + more);
    CutAt(option, more);
    NoComma(head, option);
    NoComma(head, option + "," + more);
  }

  lemma NoComma(head: string, rest: string)
    requires ',' !in head
    ensures head + "," + rest != head
  {
    assert |head + "," + rest| > |head|;
  }

  /** Unexported fields are left out; of those with one key the last counts. */
  lemma {:induction false} LastNamed(fields: seq<Field>, i: nat)
    requires i < |fields| && KeyOf(fields[i]).Some?
    requires forall j :: i < j < |fields| ==> KeyOf(fields[j]) != KeyOf(fields[i])
    ensures fields[i].exported
    ensures KeyOf(fields[i]).value in Named(fields) && Named(fields)[KeyOf(fields[i]).value] == fields[i].value
  {
    hide KeyOf;
    if i < |fields| - 1 { LastNamed(fields[..|fields| - 1], i); }
    Exported(fields[i]);
  }

  lemma Exported(f: Field)
    ensures KeyOf(f).Some? ==> f.exported
  {
  }

  lemma {:induction false} OnlyNamed(fields: seq<Field>, k: string) returns (i: nat)
    requires k in Named(fields)
    ensures i < |fields| && KeyOf(fields[i]) == Some(k)
  {
    hide KeyOf;
    if KeyOf(fields[|fields| - 1]) == Some(k) { i := |fields| - 1; } else { i := OnlyNamed(fields[..|fields| - 1], k); }
  }

  // ---- What a decoder that keeps number literals gives for a value -------------------------------

  function Decoded(v: Value): GoValue {
    match v
    case Null => Nil
    case Bool(b) => Boolean(b)
    case Int(n) => Number(FormatInt(n))
    case Str(s) => Text(s)
    case Arr(items) => Slice(seq(|items|, i requires 0 <= i < |items| => Decoded(items[i])))
    case Obj(fields) => Table(map k | k in fields :: Decoded(fields[k]))
  }

  lemma {:induction false} DecodedMeans(v: Value)
    ensures Meaning(Decoded(v)) == Some(v)
  {
    match v
    case Int(n) => BigReadBack(n);
    case Arr(items) =>
      var g := Decoded(v);
      forall i | 0 <= i < |items| ensures Meaning(g.items[i]) == Some(items[i]) {
        DecodedMeans(items[i]);
      }
      assert Meaning(g) == ListMeaning(g, g.items);
      assert ListMeaning(g, g.items).value.items == items;
    case Obj(fields) =>
      var g := Decoded(v);
      forall k | k in fields ensures Meaning(g.entries[k]) == Some(fields[k]) {
        DecodedMeans(fields[k]);
      }
      assert Meaning(g) == TableMeaning(g, g.entries);
      assert TableMeaning(g, g.entries).value.fields == fields;
    case _ =>
  }
}
