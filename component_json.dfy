/**
 * The bridge between component-model values and JSON in the workflow executor
 * (`val_to_json` and `json_to_val` in `pypes/pypes/src/workflow.rs`), over
 * value, type and JSON trees written as datatypes. Numbers are integers only;
 * floating-point values and types are not part of this model.
 */
module ComponentJson {
  import opened Wrappers

  // ---------------------------------------------------------------------------
  // JSON values
  // ---------------------------------------------------------------------------

  /**
   * A JSON value; an object is a list of members with distinct keys. The order
   * of the members is not significant: `serde_json`'s map keeps its keys
   * sorted, so a printer `text` faithful to it prints the keys in sorted order
   * whatever the list's order.
   */
  datatype Json =
    | Null
    | JBool(b: bool)
    | Number(n: int)
    | JString(s: string)
    | Array(items: seq<Json>)
    | Object(members: seq<(string, Json)>)

  /** `Map::get`: the value stored under `key`. */
  function Get(members: seq<(string, Json)>, key: string): (r: Option<Json>)
    ensures r.Some? <==> exists i :: 0 <= i < |members| && members[i].0 == key
  {
    if members == [] then None
    else if members[0].0 == key then Some(members[0].1)
    else Get(members[1..], key)
  }

  /** `Map::insert`: replaces the value under `key`, or adds the member. */
  function Insert(members: seq<(string, Json)>, key: string, value: Json): (r: seq<(string, Json)>)
    ensures Get(r, key) == Some(value)
    ensures forall k :: k != key ==> Get(r, k) == Get(members, k)
  {
    if members == [] then [(key, value)]
    else if members[0].0 == key then [(key, value)] + members[1..]
    else [members[0]] + Insert(members[1..], key, value)
  }

  /** Inserts the present entries, in order, into an initially empty object. */
  function InsertAll(acc: seq<(string, Json)>, entries: seq<Option<(string, Json)>>): seq<(string, Json)>
    decreases |entries|
  {
    if entries == [] then acc
    else
      var next := if entries[0].Some? then Insert(acc, entries[0].value.0, entries[0].value.1) else acc;
      InsertAll(next, entries[1..])
  }

  // ---------------------------------------------------------------------------
  // Component-model types and values
  // ---------------------------------------------------------------------------

  datatype IntKind = S8 | U8 | S16 | U16 | S32 | U32 | S64 | U64

  predicate Signed(k: IntKind)
  {
    k == S8 || k == S16 || k == S32 || k == S64
  }

  /** Two to the power of the kind's width. */
  function Modulus(k: IntKind): nat
  {
    match k
    case S8 => 0x100
    case U8 => 0x100
    case S16 => 0x1_0000
    case U16 => 0x1_0000
    case S32 => 0x1_0000_0000
    case U32 => 0x1_0000_0000
    case S64 => 0x1_0000_0000_0000_0000
    case U64 => 0x1_0000_0000_0000_0000
  }

  /** The values an integer of kind `k` can hold. */
  predicate InRange(k: IntKind, i: int)
  {
    if Signed(k) then -(Modulus(k) / 2) <= i < Modulus(k) / 2 else 0 <= i < Modulus(k)
  }

  /** The Rust `as` cast to kind `k`: keeps the low bits, two's complement for signed kinds. */
  function Narrow(k: IntKind, n: int): (r: int)
    ensures InRange(k, r)
    ensures InRange(k, n) ==> r == n
  {
    var m := Modulus(k);
    ModSmall(if Signed(k) then n + m / 2 else n, m);
    if Signed(k) then (n + m / 2) % m - m / 2 else n % m
  }

  /** The remainder lies in `[0, m)`, and a number already there is its own remainder. */
  lemma ModSmall(x: int, m: int)
    requires m > 0
    ensures 0 <= x % m < m
    ensures 0 <= x < m ==> x % m == x
  {
  }

  /** The cast only drops multiples of two to the power of the width. */
  lemma NarrowCongruent(k: IntKind, n: int)
    ensures exists q :: Narrow(k, n) == n + q * Modulus(k)
  {
    var m := Modulus(k);
    var h := if Signed(k) then m / 2 else 0;
    var q := (n + h) / m;
    assert (n + h) == q * m + (n + h) % m;
    assert Narrow(k, n) == n - q * m;
    assert Narrow(k, n) == n + (-q) * m;
  }

  datatype Field = Field(name: string, ty: Type)

  datatype Case = Case(name: string, ty: Option<Type>)

  /** A component-model type; `TResource` stands for owned and borrowed handles. */
  datatype Type =
    | TBool
    | TInt(kind: IntKind)
    | TChar
    | TString
    | TList(elem: Type)
    | TRecord(fields: seq<Field>)
    | TTuple(types: seq<Type>)
    | TVariant(cases: seq<Case>)
    | TEnum(names: seq<string>)
    | TOption(inner: Type)
    | TResult(ok: Option<Type>, err: Option<Type>)
    | TFlags(flags: seq<string>)
    | TResource

  /** A component-model value; `VResource` stands for a resource handle. */
  datatype Val =
    | VBool(b: bool)
    | VInt(kind: IntKind, i: int)
    | VChar(c: char)
    | VString(s: string)
    | VList(items: seq<Val>)
    | VRecord(fields: seq<(string, Val)>)
    | VTuple(items: seq<Val>)
    | VVariant(disc: string, payload: Option<Val>)
    | VEnum(disc: string)
    | VOption(value: Option<Val>)
    | VResult(isOk: bool, payload: Option<Val>)
    | VFlags(flagNames: seq<string>)
    | VResource

  function FieldName(f: Field): string { f.name }

  function CaseName(c: Case): string { c.name }

  /**
   * Index of the first item called `name`, or `|items|`: the lookup of a
   * record field or a variant case by name (`nameOf` is `FieldName` or `CaseName`).
   */
  function FirstNamed<T>(items: seq<T>, nameOf: T -> string, name: string): (r: nat)
    ensures r <= |items|
    ensures r < |items| ==> nameOf(items[r]) == name
    ensures forall j :: 0 <= j < r ==> nameOf(items[j]) != name
  {
    if items == [] then 0
    else if nameOf(items[0]) == name then 0
    else 1 + FirstNamed(items[1..], nameOf, name)
  }

  // ---------------------------------------------------------------------------
  // val_to_json
  // ---------------------------------------------------------------------------

  /**
   * The JSON form of `v` read at type `t`. `show` is the debug rendering
   * `"<value>, <type>"` used in the text of a value that does not fit its type.
   */
  function ValToJson(v: Val, t: Type, show: (Val, Type) -> string): Json
    decreases v
  {
    match v
    case VBool(b) => JBool(b)
    case VInt(_, i) => Number(i)
    case VChar(c) => JString([c])
    case VString(s) => JString(s)
    case VList(items) =>
      if t.TList? then
        Array(seq(|items|, i requires 0 <= i < |items| => ValToJson(items[i], t.elem, show)))
      else Mismatch(v, t, show)
    case VRecord(fs) =>
      if t.TRecord? then
        Object(InsertAll([], seq(|fs|, i requires 0 <= i < |fs| =>
          var j := FirstNamed(t.fields, FieldName, fs[i].0);
          if j < |t.fields| then Some((fs[i].0, ValToJson(fs[i].1, t.fields[j].ty, show))) else None)))
      else Mismatch(v, t, show)
    case VTuple(items) =>
      if t.TTuple? then
        var n := if |items| <= |t.types| then |items| else |t.types|;
        Array(seq(n, i requires 0 <= i < n => ValToJson(items[i], t.types[i], show)))
      else Mismatch(v, t, show)
    case VVariant(d, p) =>
      if t.TVariant? then
        var j := FirstNamed(t.cases, CaseName, d);
        if j == |t.cases| then JString("unknown_variant_case(" + d + ")")
        else if p.Some? && t.cases[j].ty.Some? then
          Object([("tag", JString(d)), ("val", ValToJson(p.value, t.cases[j].ty.value, show))])
        else Object([("tag", JString(d))])
      else Mismatch(v, t, show)
    case VEnum(d) => JString(d)
    case VOption(o) =>
      if t.TOption? then
        (if o.Some? then ValToJson(o.value, t.inner, show) else Null)
      else Mismatch(v, t, show)
    case VResult(isOk, p) =>
      if t.TResult? then
        var slot := if isOk then t.ok else t.err;
        var key := if isOk then "ok" else "err";
        Object([(key, if p.Some? && slot.Some? then ValToJson(p.value, slot.value, show) else Null)])
      else Mismatch(v, t, show)
    case VFlags(names) => Array(seq(|names|, i requires 0 <= i < |names| => JString(names[i])))
    case VResource => Mismatch(v, t, show)
  }

  function Mismatch(v: Val, t: Type, show: (Val, Type) -> string): Json
  {
    JString("match_mismatch(" + show(v, t) + ")")
  }

  // ---------------------------------------------------------------------------
  // json_to_val
  // ---------------------------------------------------------------------------

  datatype DecodeError =
    | Expected(what: string)
    | MissingField(field: string)
    | MissingTag
    | UnknownTag(tag: string)
    | MissingPayload
    | TupleArity
    | EmptyChar
    | Unsupported(ty: Type)

  /** `Value::as_i64`. */
  function AsI64(j: Json): Option<int>
  {
    if j.Number? && -0x8000_0000_0000_0000 <= j.n < 0x8000_0000_0000_0000 then Some(j.n) else None
  }

  /** `Value::as_u64`. */
  function AsU64(j: Json): Option<int>
  {
    if j.Number? && 0 <= j.n < 0x1_0000_0000_0000_0000 then Some(j.n) else None
  }

  /** `collect` into a `Result`: the first error, or all the values. */
  function Collect(rs: seq<Result<Val, DecodeError>>): (r: Result<seq<Val>, DecodeError>)
    ensures r.Ok? <==> forall i :: 0 <= i < |rs| ==> rs[i].Ok?
    ensures r.Ok? ==> |r.value| == |rs| && forall i :: 0 <= i < |rs| ==> r.value[i] == rs[i].value
    ensures r.Err? ==> exists i :: 0 <= i < |rs| && rs[i] == Err(r.error) && forall j :: 0 <= j < i ==> rs[j].Ok?
  {
    if rs == [] then Ok([])
    else if rs[0].Err? then Err(rs[0].error)
    else
      match Collect(rs[1..])
      case Ok(vs) => Ok([rs[0].value] + vs)
      case Err(e) => Err(e)
  }

  /**
   * The component value read from `j` at type `t`. `text` is the JSON text of a
   * value (`Value::to_string`), which a string parameter receives when given
   * anything but a JSON string. An empty string read as a `char` is the one
   * case where the Rust code panics; it is `EmptyChar` here.
   */
  function JsonToVal(j: Json, t: Type, text: Json -> string): Result<Val, DecodeError>
    decreases t, 0
  {
    match t
    case TBool => if j.JBool? then Ok(VBool(j.b)) else Err(Expected("bool"))
    case TInt(k) =>
      var n := if Signed(k) then AsI64(j) else AsU64(j);
      if n.Some? then Ok(VInt(k, Narrow(k, n.value))) else Err(Expected("number"))
    case TChar =>
      if !j.JString? then Err(Expected("char string"))
      else if j.s == [] then Err(EmptyChar)
      else Ok(VChar(j.s[0]))
    case TString => Ok(VString(if j.JString? then j.s else text(j)))
    case TList(e) =>
      if !j.Array? then Err(Expected("array"))
      else
        var r := Collect(seq(|j.items|, i requires 0 <= i < |j.items| => JsonToVal(j.items[i], e, text)));
        if r.Err? then Err(r.error) else Ok(VList(r.value))
    case TRecord(fs) =>
      if !j.Object? then Err(Expected("object"))
      else
        var r := Collect(seq(|fs|, i requires 0 <= i < |fs| => DecodeField(j.members, fs[i].name, fs[i].ty, text)));
        if r.Err? then Err(r.error)
        else Ok(VRecord(seq(|fs|, i requires 0 <= i < |fs| => (fs[i].name, r.value[i]))))
    case TTuple(ts) =>
      if !j.Array? then Err(Expected("array for tuple"))
      else
        var n := if |j.items| <= |ts| then |j.items| else |ts|;
        var r := Collect(seq(n, i requires 0 <= i < n => JsonToVal(j.items[i], ts[i], text)));
        if r.Err? then Err(r.error)
        else if n < |ts| then Err(TupleArity)
        else Ok(VTuple(r.value))
    case TVariant(cases) =>
      if !j.Object? then Err(Expected("object for variant"))
      else
        var tag := Get(j.members, "tag");
        if tag.None? || !tag.value.JString? then Err(MissingTag)
        else
          var c := FirstNamed(cases, CaseName, tag.value.s);
          if c == |cases| then Err(UnknownTag(tag.value.s))
          else if cases[c].ty.None? then Ok(VVariant(tag.value.s, None))
          else
            var payload := Get(j.members, "val");
            if payload.None? then Err(MissingPayload)
            else
              var x := JsonToVal(payload.value, cases[c].ty.value, text);
              if x.Err? then Err(x.error) else Ok(VVariant(tag.value.s, Some(x.value)))
    case TOption(inner) =>
      if j.Null? then Ok(VOption(None))
      else
        var x := JsonToVal(j, inner, text);
        if x.Err? then Err(x.error) else Ok(VOption(Some(x.value)))
    case _ => Err(Unsupported(t))
  }

  /** One record field: its member must be present and decode at the field's type. */
  function DecodeField(members: seq<(string, Json)>, name: string, ty: Type, text: Json -> string): Result<Val, DecodeError>
    decreases ty, 1
  {
    var m := Get(members, name);
    if m.None? then Err(MissingField(name)) else JsonToVal(m.value, ty, text)
  }

  // ---------------------------------------------------------------------------
  // Well-typed values and the round trip
  // ---------------------------------------------------------------------------

  predicate DistinctNames(fields: seq<Field>)
  {
    forall a, b :: 0 <= a < b < |fields| ==> fields[a].name != fields[b].name
  }

  /** `v` is a value of type `t`, as the component model builds them. */
  predicate HasType(v: Val, t: Type)
    decreases v
  {
    match v
    case VBool(_) => t == TBool
    case VInt(k, i) => t == TInt(k) && InRange(k, i)
    case VChar(_) => t == TChar
    case VString(_) => t == TString
    case VList(items) =>
      t.TList? && forall i :: 0 <= i < |items| ==> HasType(items[i], t.elem)
    case VRecord(fs) =>
      t.TRecord? && |fs| == |t.fields| && DistinctNames(t.fields)
      && forall i :: 0 <= i < |fs| ==> fs[i].0 == t.fields[i].name && HasType(fs[i].1, t.fields[i].ty)
    case VTuple(items) =>
      t.TTuple? && |items| == |t.types|
      && forall i :: 0 <= i < |items| ==> HasType(items[i], t.types[i])
    case VVariant(d, p) =>
      t.TVariant? && FirstNamed(t.cases, CaseName, d) < |t.cases|
      && var c := t.cases[FirstNamed(t.cases, CaseName, d)];
      p.Some? == c.ty.Some? && (p.Some? ==> HasType(p.value, c.ty.value))
    case VEnum(d) => t.TEnum? && d in t.names
    case VOption(o) => t.TOption? && (o.Some? ==> HasType(o.value, t.inner))
    case VResult(isOk, p) =>
      t.TResult?
      && var slot := if isOk then t.ok else t.err;
      p.Some? == slot.Some? && (p.Some? ==> HasType(p.value, slot.value))
    case VFlags(names) => t.TFlags? && forall n :: n in names ==> n in t.flags
    case VResource => t == TResource
  }

  /**
   * The types `json_to_val` reads back: no enum, result, flags or handle
   * anywhere, and no option directly inside an option (both of its empty
   * forms would be `null`).
   */
  predicate Decodable(t: Type)
    decreases t
  {
    match t
    case TBool => true
    case TInt(_) => true
    case TChar => true
    case TString => true
    case TList(e) => Decodable(e)
    case TRecord(fs) => forall i :: 0 <= i < |fs| ==> Decodable(fs[i].ty)
    case TTuple(ts) => forall i :: 0 <= i < |ts| ==> Decodable(ts[i])
    case TVariant(cases) => forall i :: 0 <= i < |cases| && cases[i].ty.Some? ==> Decodable(cases[i].ty.value)
    case TOption(inner) => Decodable(inner) && !inner.TOption?
    case _ => false
  }

  /** A resource handle has no JSON form: whatever its type, it is recorded as the mismatch text. */
  lemma ResourceIsMismatch(t: Type, show: (Val, Type) -> string)
    ensures HasType(VResource, TResource)
    ensures ValToJson(VResource, t, show) == JString("match_mismatch(" + show(VResource, t) + ")")
  {
  }

  /** With distinct names, the first field called `fields[i].name` is field `i`. */
  lemma FieldIndexDistinct(fields: seq<Field>, i: nat)
    requires DistinctNames(fields) && i < |fields|
    ensures FirstNamed(fields, FieldName, fields[i].name) == i
  {
  }

  /** Inserting keys other than `k` leaves the value under `k` alone. */
  lemma {:induction false} InsertAllOther(acc: seq<(string, Json)>, entries: seq<Option<(string, Json)>>, k: string)
    requires forall i :: 0 <= i < |entries| && entries[i].Some? ==> entries[i].value.0 != k
    ensures Get(InsertAll(acc, entries), k) == Get(acc, k)
    decreases |entries|
  {
    if entries != [] {
      var next := if entries[0].Some? then Insert(acc, entries[0].value.0, entries[0].value.1) else acc;
      InsertAllOther(next, entries[1..], k);
    }
  }

  /** Inserting entries with distinct keys stores each under its own key. */
  lemma {:induction false} InsertAllDistinct(acc: seq<(string, Json)>, entries: seq<Option<(string, Json)>>, i: nat)
    requires i < |entries| && entries[i].Some?
    requires forall a :: 0 <= a < |entries| && a != i && entries[a].Some? ==> entries[a].value.0 != entries[i].value.0
    ensures Get(InsertAll(acc, entries), entries[i].value.0) == Some(entries[i].value.1)
    decreases |entries|
  {
    var next := if entries[0].Some? then Insert(acc, entries[0].value.0, entries[0].value.1) else acc;
    if i == 0 {
      InsertAllOther(next, entries[1..], entries[0].value.0);
    } else {
      InsertAllDistinct(next, entries[1..], i - 1);
    }
  }

  /** A well-typed value whose type is not an option never encodes as `null`. */
  lemma NotNull(v: Val, t: Type, show: (Val, Type) -> string)
    requires HasType(v, t) && !t.TOption?
    ensures ValToJson(v, t, show) != Null
  {
  }

  /** Decoding reads back every well-typed value of a decodable type. */
  /** The list case of `RoundTrip`: every element comes back. */
  lemma {:induction false} RoundTripList(v: Val, t: Type, show: (Val, Type) -> string, text: Json -> string)
    requires v.VList? && HasType(v, t) && Decodable(t)
    ensures JsonToVal(ValToJson(v, t, show), t, text) == Ok(v)
    decreases v, 0
  {
    var items := v.items;
    var j := ValToJson(v, t, show);
    forall i | 0 <= i < |items|
      ensures JsonToVal(j.items[i], t.elem, text) == Ok(items[i])
    {
      RoundTrip(items[i], t.elem, show, text);
    }
    var r := Collect(seq(|j.items|, i requires 0 <= i < |j.items| => JsonToVal(j.items[i], t.elem, text)));
    assert r.Ok? && r.value == items;
  }

  /** The tuple case of `RoundTrip`: every component comes back. */
  lemma {:induction false} RoundTripTuple(v: Val, t: Type, show: (Val, Type) -> string, text: Json -> string)
    requires v.VTuple? && HasType(v, t) && Decodable(t)
    ensures JsonToVal(ValToJson(v, t, show), t, text) == Ok(v)
    decreases v, 0
  {
    var items := v.items;
    var j := ValToJson(v, t, show);
    forall i | 0 <= i < |items|
      ensures JsonToVal(j.items[i], t.types[i], text) == Ok(items[i])
    {
      RoundTrip(items[i], t.types[i], show, text);
    }
    var r := Collect(seq(|j.items|, i requires 0 <= i < |j.items| => JsonToVal(j.items[i], t.types[i], text)));
    assert r.Ok? && r.value == items;
  }

  /** The variant case of `RoundTrip`: the tag picks the case back and the payload comes back. */
  lemma {:induction false} RoundTripVariant(v: Val, t: Type, show: (Val, Type) -> string, text: Json -> string)
    requires v.VVariant? && HasType(v, t) && Decodable(t)
    ensures JsonToVal(ValToJson(v, t, show), t, text) == Ok(v)
    decreases v, 0
  {
    var d, p := v.disc, v.payload;
    var c := FirstNamed(t.cases, CaseName, d);
    if p.Some? {
      var pj := ValToJson(p.value, t.cases[c].ty.value, show);
      var members := [("tag", JString(d)), ("val", pj)];
      assert Get(members, "tag") == Some(JString(d));
      assert "tag" != "val" by { assert "tag"[0] != "val"[0]; }
      assert Get(members, "val") == Some(pj);
      RoundTrip(p.value, t.cases[c].ty.value, show, text);
    }
  }

  lemma {:induction false} RoundTrip(v: Val, t: Type, show: (Val, Type) -> string, text: Json -> string)
    requires HasType(v, t) && Decodable(t)
    ensures JsonToVal(ValToJson(v, t, show), t, text) == Ok(v)
    decreases v, 1
  {
    match v
    case VBool(_) =>
    case VInt(_, _) =>
    case VChar(_) =>
    case VString(_) =>
    case VList(items) =>
      RoundTripList(v, t, show, text);
    case VRecord(fs) =>
      RoundTripRecord(fs, t, show, text);
    case VTuple(items) =>
      RoundTripTuple(v, t, show, text);
    case VVariant(d, p) =>
      RoundTripVariant(v, t, show, text);
    case VOption(o) =>
      if o.Some? {
        NotNull(o.value, t.inner, show);
        RoundTrip(o.value, t.inner, show, text);
      }
  }

  /** The record case of `RoundTrip`: each field is found under its name and read back. */
  lemma {:induction false} RoundTripRecord(fs: seq<(string, Val)>, t: Type, show: (Val, Type) -> string, text: Json -> string)
    requires HasType(VRecord(fs), t) && Decodable(t)
    ensures JsonToVal(ValToJson(VRecord(fs), t, show), t, text) == Ok(VRecord(fs))
    decreases VRecord(fs), 0
  {
    var entries := seq(|fs|, i requires 0 <= i < |fs| =>
      var j := FirstNamed(t.fields, FieldName, fs[i].0);
      if j < |t.fields| then Some((fs[i].0, ValToJson(fs[i].1, t.fields[j].ty, show))) else None);
    forall i | 0 <= i < |fs|
      ensures entries[i] == Some((fs[i].0, ValToJson(fs[i].1, t.fields[i].ty, show)))
    {
      hide ValToJson, FirstNamed;
      FieldIndexDistinct(t.fields, i);
    }
    var members := InsertAll([], entries);
    assert ValToJson(VRecord(fs), t, show) == Object(members);
    forall i | 0 <= i < |fs|
      ensures DecodeField(members, t.fields[i].name, t.fields[i].ty, text) == Ok(fs[i].1)
    {
      hide ValToJson, InsertAll, FirstNamed;
      InsertAllDistinct([], entries, i);
      RoundTrip(fs[i].1, t.fields[i].ty, show, text);
    }
    DecodeRecord(members, t.fields, fs, text);
  }

  /** An object whose every field decodes to the record's value decodes to the record. */
  lemma DecodeRecord(members: seq<(string, Json)>, fields: seq<Field>, fs: seq<(string, Val)>, text: Json -> string)
    requires |fs| == |fields|
    requires forall i :: 0 <= i < |fs| ==> fs[i].0 == fields[i].name
    requires forall i :: 0 <= i < |fs| ==> DecodeField(members, fields[i].name, fields[i].ty, text) == Ok(fs[i].1)
    ensures JsonToVal(Object(members), TRecord(fields), text) == Ok(VRecord(fs))
  {
    hide DecodeField;
    var r := Collect(seq(|fields|, i requires 0 <= i < |fields| =>
      DecodeField(members, fields[i].name, fields[i].ty, text)));
    assert r.Ok?;
    assert seq(|fields|, i requires 0 <= i < |fields| => (fields[i].name, r.value[i])) == fs;
  }

  /** An option of an option does not survive the trip: `Some(None)` comes back as `None`. */
  lemma OptionOfOptionCollapses(show: (Val, Type) -> string, text: Json -> string)
    ensures HasType(VOption(Some(VOption(None))), TOption(TOption(TBool)))
    ensures JsonToVal(ValToJson(VOption(Some(VOption(None))), TOption(TOption(TBool)), show),
                      TOption(TOption(TBool)), text) == Ok(VOption(None))
  {
  }

  /** A record whose object lacks one of the type's fields is rejected. */
  lemma MissingFieldFails(j: Json, fs: seq<Field>, i: nat, text: Json -> string)
    requires j.Object? && i < |fs| && Get(j.members, fs[i].name).None?
    ensures JsonToVal(j, TRecord(fs), text).Err?
  {
    var rs := seq(|fs|, k requires 0 <= k < |fs| => DecodeField(j.members, fs[k].name, fs[k].ty, text));
    assert rs[i].Err?;
  }

  /** A JSON array shorter than the tuple type is rejected. */
  lemma ShortTupleFails(j: Json, ts: seq<Type>, text: Json -> string)
    requires j.Array? && |j.items| < |ts|
    ensures JsonToVal(j, TTuple(ts), text).Err?
  {
  }
}
