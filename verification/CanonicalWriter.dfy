/** The writer as the source has it: one buffer that every call appends to (internal/zero/canonical/writer.go). */
module CanonicalWriter {
  import opened Options
  import opened CanonicalText
  import opened CanonicalJson
  import opened GoValues

  class Writer {
    var buf: string

    constructor ()
      ensures buf == ""
    {
      buf := "";
    }

    /**
     What the value means goes to the buffer, unless some part has no form or no safe integer. On failure
     the buffer holds what was written before that part; the caller drops it.
     */
    method WriteValue(v: GoValue) returns (ok: bool)
      modifies this
      ensures ok == Writable(v)
      ensures ok ==> buf == old(buf) + Print(Meaning(v).value)
      decreases v, 3
    {
      hide FormatInt, Quote;
      match v
      case Nil => buf := buf + "null"; return true;
      case Boolean(b) =>
        if b { buf := buf + "true"; } else { buf := buf + "false"; }
        return true;
      case Float64(f) => ok := WriteFloatNumber(f);
      case Number(text) => ok := WriteJsonNumber(text);
      case Signed(n) => ok := WriteInteger(n);
      case Unsigned(u) =>
        if u > MAX_SAFE_INTEGER { return false; }
        buf := buf + FormatInt(u);
        return true;
      case Text(s) => WriteString(s); return true;
      case Slice(items) => ok := WriteArray(v, items);
      case Table(entries) => ok := WriteObject(v, entries);
      case Struct(fields) =>
        var entries := StructToMap(fields);
        ok := WriteObject(v, entries);
      case Pointer(to) =>
        if to.None? {
          buf := buf + "null";
          return true;
        }
        ok := WriteValue(to.value);
      case Unsupported(_) => return false;
    }

    method WriteFloatNumber(f: Float) returns (ok: bool)
      modifies this
      ensures ok == (WholePart(f).Some? && Safe(Int(WholePart(f).value)))
      ensures buf == if ok then old(buf) + FormatInt(WholePart(f).value) else old(buf)
    {
      if f.NaN? || f.Inf? { return false; }
      if f.r.Floor as real != f.r { return false; }
      if f.r < -MAX_SAFE_INTEGER as real || f.r > MAX_SAFE_INTEGER as real { return false; }
      buf := buf + FormatInt(f.r.Floor);
      return true;
    }

    method WriteJsonNumber(text: string) returns (ok: bool)
      modifies this
      ensures ok == (ReadBig(text).Some? && Safe(Int(ReadBig(text).value)))
      ensures buf == if ok then old(buf) + FormatInt(ReadBig(text).value) else old(buf)
    {
      if '.' in text || 'e' in text || 'E' in text {
        NotDigits(text);
        return false;
      }
      var n := ReadBig(text);
      if n.None? { return false; }
      if n.value > MAX_SAFE_INTEGER || n.value < -MAX_SAFE_INTEGER { return false; }
      buf := buf + FormatInt(n.value);
      return true;
    }

    method WriteInteger(n: int) returns (ok: bool)
      modifies this
      ensures ok == (-MAX_SAFE_INTEGER <= n <= MAX_SAFE_INTEGER)
      ensures buf == if ok then old(buf) + FormatInt(n) else old(buf)
    {
      if n < -MAX_SAFE_INTEGER || n > MAX_SAFE_INTEGER { return false; }
      buf := buf + FormatInt(n);
      return true;
    }

    method WriteString(s: string)
      modifies this
      ensures buf == old(buf) + Quote(s)
    {
      hide Escape;
      buf := buf + "\"";
      for i := 0 to |s|
        invariant buf + EscapeAll(s[i..]) == old(buf) + "\"" + EscapeAll(s)
      {
        assert s[i..][0] == s[i] && s[i..][1..] == s[i + 1..];
        assert buf + (Escape(s[i]) + EscapeAll(s[i + 1..])) == (buf + Escape(s[i])) + EscapeAll(s[i + 1..]);
        WriteRune(s[i]);
      }
      assert buf + EscapeAll(s[|s|..]) == buf;
      buf := buf + "\"";
      assert buf == old(buf) + ("\"" + EscapeAll(s) + "\"");
    }

    method WriteRune(r: char)
      modifies this
      ensures buf == old(buf) + Escape(r)
    {
      match r
      case '"' => buf := buf + "\\\"";
      case '\\' => buf := buf + "\\\\";
      case '\n' => buf := buf + "\\n";
      case '\r' => buf := buf + "\\r";
      case '\t' => buf := buf + "\\t";
      case _ =>
        if r == 8 as char {
          buf := buf + "\\b";
        } else if r == 12 as char {
          buf := buf + "\\f";
        } else if r < ' ' {
          var code := r as int;
          buf := buf + "\\u00";
          buf := buf + [HexDigit(code / 16)];
          buf := buf + [HexDigit(code % 16)];
          assert buf == old(buf) + Escape(r);
        } else {
          buf := buf + [r];
        }
    }

    /** v is the value whose items these are. */
    method WriteArray(ghost v: GoValue, items: seq<GoValue>) returns (ok: bool)
      requires forall i :: 0 <= i < |items| ==> items[i] < v
      modifies this
      ensures var whole := ListMeaning(v, items);
              ok == (whole.Some? && Safe(whole.value)) && (ok ==> buf == old(buf) + Print(whole.value))
      decreases v, 0
    {
      hide Print, Meaning;
      ghost var whole := ListMeaning(v, items);
      buf := buf + "[";
      for i := 0 to |items|
        invariant forall k :: 0 <= k < i ==> Writable(items[k])
        invariant whole.Some? ==> buf + Items(whole.value, i) == old(buf) + "[" + Items(whole.value, 0)
      {
        ghost var start := buf;
        if i > 0 { buf := buf + ","; }
        ok := WriteValue(items[i]);
        if !ok { return; }
        if whole.Some? { ItemsStep(whole.value, i, start, buf); }
      }
      assert buf + "" == buf;
      buf := buf + "]";
      PrintArray(whole.value);
      assert buf == old(buf) + ("[" + Items(whole.value, 0) + "]");
      ok := true;
    }

    /** The keys come from the map in no particular order and are sorted before anything is written. */
    method WriteObject(ghost v: GoValue, entries: map<string, GoValue>) returns (ok: bool)
      requires forall k :: k in entries ==> entries[k] < v
      modifies this
      ensures var whole := TableMeaning(v, entries);
              ok == (whole.Some? && Safe(whole.value)) && (ok ==> buf == old(buf) + Print(whole.value))
      decreases v, 2
    {
      hide Print, SortedKeys, Fields, Safe, Meaning;
      ghost var whole := TableMeaning(v, entries);
      var keys := Collect(entries.Keys);
      SortStringsSorts(keys);
      keys := SortStrings(keys);
      SortedOnce(keys, SortedKeys(entries.Keys));
      buf := buf + "{";
      ok := WriteFields(v, entries, keys);
      if !ok { return; }
      buf := buf + "}";
      PrintObject(whole.value);
      assert whole.value.fields.Keys == entries.Keys;
      assert buf == old(buf) + ("{" + Fields(whole.value, keys, 0) + "}");
    }

    method WriteFields(ghost v: GoValue, entries: map<string, GoValue>, keys: seq<string>) returns (ok: bool)
      requires (forall k :: k in entries ==> entries[k] < v) && Elements(keys) == entries.Keys
      modifies this
      ensures var whole := TableMeaning(v, entries);
              ok == (whole.Some? && Safe(whole.value)) && (ok ==> buf == old(buf) + Fields(whole.value, keys, 0))
      decreases v, 0
    {
      hide Print, Quote, Fields, Meaning;
      ghost var whole := TableMeaning(v, entries);
      for i := 0 to |keys|
        invariant forall k :: 0 <= k < i ==> keys[k] in entries && Writable(entries[keys[k]])
        invariant whole.Some? ==> buf + Fields(whole.value, keys, i) == old(buf) + Fields(whole.value, keys, 0)
      {
        ghost var start := buf;
        assert keys[i] in Elements(keys);
        if i > 0 { buf := buf + ","; }
        WriteString(keys[i]);
        buf := buf + ":";
        ok := WriteValue(entries[keys[i]]);
        assert whole.Some? ==> whole.value.fields[keys[i]] == Meaning(entries[keys[i]]).value;
        if !ok { return; }
        if whole.Some? { FieldsStep(whole.value, keys, i, start, buf); }
      }
      AllWritable(entries, keys);
      FieldsEnd(whole.value, keys);
      assert buf + "" == buf;
      ok := true;
    }
  }

  /** Later fields replace earlier ones of the same key. */
  method StructToMap(fields: seq<Field>) returns (m: map<string, GoValue>)
    ensures m == Named(fields)
  {
    m := map[];
    assert fields[..0] == [];
    for i := 0 to |fields|
      invariant m == Named(fields[..i])
    {
      assert fields[..i + 1][..i] == fields[..i] && fields[..i + 1][i] == fields[i];
      var field := fields[i];
      if !field.exported { continue; }
      var name := field.name;
      if field.tag != "" {
        var (head, options) := Cut(field.tag);
        if head == "-" { continue; }
        if head != "" { name := head; }
        if options.Some? && Cut(options.value).0 == "omitempty" && Empty(field) { continue; }
      }
      m := m[name := field.value];
    }
    assert fields[..|fields|] == fields;
  }

  lemma NotDigits(text: string)
    requires '.' in text || 'e' in text || 'E' in text
    ensures ReadBig(text) == None
  {
    var c :| c in text && (c == '.' || c == 'e' || c == 'E');
    var i :| 0 <= i < |text| && text[i] == c;
    if i > 0 { assert text[1..][i - 1] == c; }
  }

  lemma ItemsStep(v: Value, i: nat, start: string, now: string)
    requires v.Arr? && i < |v.items| && now == start + (if i > 0 then "," else "") + Print(v.items[i])
    ensures now + Items(v, i + 1) == start + Items(v, i)
  {
    hide Print;
    assert Items(v, i) == (if i > 0 then "," else "") + Print(v.items[i]) + Items(v, i + 1);
  }

  lemma FieldsEnd(v: Value, ks: seq<string>)
    requires v.Obj? && Elements(ks) == v.fields.Keys
    ensures Fields(v, ks, |ks|) == ""
  {
  }

  method Collect(ks: set<string>) returns (keys: seq<string>)
    ensures Distinct(keys) && Elements(keys) == ks
  {
    keys := [];
    var todo := ks;
    while todo != {}
      invariant todo <= ks && Distinct(keys) && Elements(keys) == ks - todo
      decreases |todo|
    {
      var k :| k in todo;
      assert k !in Elements(keys);
      assert Elements(keys + [k]) == Elements(keys) + {k};
      keys, todo := keys + [k], todo - {k};
    }
  }

  lemma FieldsStep(v: Value, ks: seq<string>, i: nat, start: string, now: string)
    requires v.Obj? && Elements(ks) == v.fields.Keys && i < |ks| && ks[i] in v.fields
    requires now == start + (if i > 0 then "," else "") + Quote(ks[i]) + ":" + Print(v.fields[ks[i]])
    ensures now + Fields(v, ks, i + 1) == start + Fields(v, ks, i)
  {
    hide Print, Quote;
    var c, k, p, q := if i > 0 then "," else "", Quote(ks[i]), Print(v.fields[ks[i]]), Fields(v, ks, i + 1);
    assert Fields(v, ks, i) == c + k + ":" + p + q;
    assert start + c + k + ":" + p + q == start + (c + k + ":" + p + q);
  }

  lemma PrintArray(v: Value)
    requires v.Arr?
    ensures Print(v) == "[" + Items(v, 0) + "]"
  {
  }

  lemma PrintObject(v: Value)
    requires v.Obj?
    ensures Print(v) == "{" + Fields(v, SortedKeys(v.fields.Keys), 0) + "}"
  {
  }

  lemma AllWritable(entries: map<string, GoValue>, ks: seq<string>)
    requires Elements(ks) == entries.Keys && forall k :: 0 <= k < |ks| ==> ks[k] in entries && Writable(entries[ks[k]])
    ensures forall k :: k in entries ==> Writable(entries[k])
  {
    forall k | k in entries ensures Writable(entries[k]) {
      assert k in Elements(ks);
    }
  }

  /** Marshal: the bytes of what the value means, or an error. */
  method MarshalValue(v: GoValue) returns (r: Option<string>)
    ensures r == if Meaning(v).Some? then Marshal(Meaning(v).value) else None
  {
    hide Print, Safe, Meaning;
    var w := new Writer();
    var ok := w.WriteValue(v);
    if !ok { return None; }
    assert "" + Print(Meaning(v).value) == Print(Meaning(v).value);
    return Some(w.buf);
  }

  /** JSON: the text is decoded, with number literals kept, and marshalled; the whole text must be one document. */
  method CanonicalForm(text: string) returns (r: Option<string>)
    ensures r == Canonical(text)
  {
    hide Parse, Marshal;
    var parsed := Parse(text);
    if parsed.None? { return None; }
    DecodedMeans(parsed.value);
    r := MarshalValue(Decoded(parsed.value));
  }
}
