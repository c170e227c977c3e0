/** The tagged serializer (runtime/serialization.py), without its pickle, array, tensor and repr branches. */
module Serialization {
  import opened Json
  import Base64

  /** Python values that can be passed to a remote call. Floats are kept as bit patterns. */
  datatype Py =
    | PNone
    | PBool(b: bool)
    | PInt(n: int)
    | PFloat(bits: bv64)
    | PStr(s: string)
    | PBytes(bytes: seq<Base64.Byte>)
    | PComplex(re: bv64, im: bv64)
    | PList(items: seq<Py>)
    | PTuple(items: seq<Py>)
    | PDict(entries: map<string, Py>)
    | PSet(members: set<Py>)

  /** The order in which a set is iterated is the interpreter's choice; any enumeration will do. */
  type Order = set<Py> -> seq<Py>

  ghost predicate Enumerates(order: Order) {
    forall s :: Lists(order(s), s)
  }

  ghost predicate Lists(xs: seq<Py>, s: set<Py>) {
    && (forall i :: 0 <= i < |xs| ==> xs[i] in s)
    && (forall x :: x in s ==> x in xs)
    && |xs| == |s|
  }

  function Tagged(tag: string, key: string, v: Value): Value {
    Object(map["__type__" := Str(tag), key := v])
  }

  /** `[serialize_value(x) for x in xs]`, for parts of `whole`. */
  function EncodeAll(xs: seq<Py>, order: Order, ghost whole: Py): (r: seq<Value>)
    requires Enumerates(order) && forall i :: 0 <= i < |xs| ==> xs[i] < whole
    ensures |r| == |xs| && forall i :: 0 <= i < |xs| ==> r[i] == Encode(xs[i], order)
    decreases whole, 0
  {
    seq(|xs|, i requires 0 <= i < |xs| => Encode(xs[i], order))
  }

  function EncodeItems(entries: map<string, Py>, order: Order, ghost whole: Py): (r: map<string, Value>)
    requires Enumerates(order) && forall k :: k in entries ==> entries[k] < whole
    ensures r.Keys == entries.Keys && forall k :: k in entries ==> r[k] == Encode(entries[k], order)
    decreases whole, 0
  {
    map k | k in entries :: Encode(entries[k], order)
  }

  /** `serialize_value` */
  function Encode(v: Py, order: Order): Value
    requires Enumerates(order)
    decreases v, 1
  {
    match v
    case PNone => Null
    case PBool(b) => Bool(b)
    case PInt(n) => Int(n)
    case PFloat(bits) => Float(bits)
    case PStr(s) => Str(s)
    case PList(items) => Tagged("list", "values", List(EncodeAll(items, order, v)))
    case PTuple(items) => Tagged("list", "values", List(EncodeAll(items, order, v)))
    case PDict(entries) => Tagged("dict", "items", Object(EncodeItems(entries, order, v)))
    case PBytes(bytes) => Tagged("bytes", "data", Str(Base64.Encode(bytes)))
    case PComplex(re, im) => Object(map["__type__" := Str("complex"), "real" := Float(re), "imag" := Float(im)])
    case PSet(members) =>
      var xs := order(members);
      assert Lists(xs, members);
      Tagged("set", "values", List(EncodeAll(xs, order, v)))
  }

  /** `serialize_args`: the outermost list, tuple or dict carries no tag. */
  function EncodeArgs(v: Py, order: Order): Value
    requires Enumerates(order)
  {
    match v
    case PList(items) => List(EncodeAll(items, order, v))
    case PTuple(items) => List(EncodeAll(items, order, v))
    case PDict(entries) => Object(EncodeItems(entries, order, v))
    case _ => Encode(v, order)
  }

  /** Decoding ends in a value, in an exception, or in a branch this model leaves open. */
  datatype Decoded<+T> = Yields(value: T) | Raises | Open

  /** `[f(x) for x in xs]`: one exception is enough. */
  function Collect(ds: seq<Decoded<Py>>): Decoded<seq<Py>> {
    if exists i :: 0 <= i < |ds| && ds[i].Raises? then Raises
    else if exists i :: 0 <= i < |ds| && ds[i].Open? then Open
    else Yields(seq(|ds|, i requires 0 <= i < |ds| => ds[i].value))
  }

  /** `{k: f(x) for k, x in d.items()}` */
  function CollectItems(ds: map<string, Decoded<Py>>): Decoded<map<string, Py>> {
    if exists k :: k in ds && ds[k].Raises? then Raises
    else if exists k :: k in ds && ds[k].Open? then Open
    else Yields(map k | k in ds :: ds[k].value)
  }

  predicate Hashable(v: Py) {
    match v
    case PList(_) => false
    case PDict(_) => false
    case PSet(_) => false
    case PTuple(items) => forall i :: 0 <= i < |items| ==> Hashable(items[i])
    case _ => true
  }

  function RawAll(xs: seq<Value>, ghost whole: Value): (r: seq<Py>)
    requires forall i :: 0 <= i < |xs| ==> xs[i] < whole
    ensures |r| == |xs| && forall i :: 0 <= i < |xs| ==> r[i] == Raw(xs[i])
    decreases whole, 0
  {
    seq(|xs|, i requires 0 <= i < |xs| => Raw(xs[i]))
  }

  function RawItems(fields: map<string, Value>, ghost whole: Value): (r: map<string, Py>)
    requires forall k :: k in fields ==> fields[k] < whole
    ensures r.Keys == fields.Keys && forall k :: k in fields ==> r[k] == Raw(fields[k])
    decreases whole, 0
  {
    map k | k in fields :: Raw(fields[k])
  }

  /** A decoded JSON value taken as it is. */
  function Raw(j: Value): Py
    decreases j, 1
  {
    match j
    case Null => PNone
    case Bool(b) => PBool(b)
    case Int(n) => PInt(n)
    case Float(bits) => PFloat(bits)
    case Str(s) => PStr(s)
    case List(items) => PList(RawAll(items, j))
    case Object(fields) => PDict(RawItems(fields, j))
  }

  function DecodeAll(xs: seq<Value>, ghost whole: Value): (r: seq<Decoded<Py>>)
    requires forall i :: 0 <= i < |xs| ==> xs[i] < whole
    ensures |r| == |xs| && forall i :: 0 <= i < |xs| ==> r[i] == Decode(xs[i])
    decreases whole, 0
  {
    seq(|xs|, i requires 0 <= i < |xs| => Decode(xs[i]))
  }

  function DecodeItems(entries: map<string, Value>, ghost whole: Value): (r: map<string, Decoded<Py>>)
    requires forall k :: k in entries ==> entries[k] < whole
    ensures r.Keys == entries.Keys && forall k :: k in entries ==> r[k] == Decode(entries[k])
    decreases whole, 0
  {
    map k | k in entries :: Decode(entries[k])
  }

  /** `deserialize_result` */
  function Decode(j: Value): Decoded<Py>
    decreases j, 3
  {
    match j
    case Null => Yields(PNone)
    case Bool(b) => Yields(PBool(b))
    case Int(n) => Yields(PInt(n))
    case Float(bits) => Yields(PFloat(bits))
    case Str(s) => Yields(PStr(s))
    case List(items) => AsList(Collect(DecodeAll(items, j)))
    case Object(fields) =>
      var tag := Get(fields, "__type__", Null);
      if Truthy(tag) then DecodeTyped(tag, j)
      else AsDict(CollectItems(DecodeItems(fields, j)))
  }

  function AsList(d: Decoded<seq<Py>>): Decoded<Py> {
    match d case Yields(xs) => Yields(PList(xs)) case Raises => Raises case Open => Open
  }

  function AsDict(d: Decoded<map<string, Py>>): Decoded<Py> {
    match d case Yields(m) => Yields(PDict(m)) case Raises => Raises case Open => Open
  }

  /** A set display raises on the first member that cannot be hashed. */
  function AsSet(d: Decoded<seq<Py>>): Decoded<Py> {
    match d
    case Yields(xs) =>
      if forall i :: 0 <= i < |xs| ==> Hashable(xs[i]) then Yields(PSet(set i | 0 <= i < |xs| :: xs[i])) else Raises
    case Raises => Raises
    case Open => Open
  }

  /** `path.split(".")[0]` */
  function FirstPart(path: string): string {
    if path == "" || path[0] == '.' then "" else [path[0]] + FirstPart(path[1..])
  }

  const PICKLE_ALLOWLIST := {"builtins", "collections", "datetime", "decimal", "fractions", "numbers", "re", "uuid"}

  /** Only classes of these modules are handed to pickle. */
  predicate Pickled(path: string) {
    FirstPart(path) in PICKLE_ALLOWLIST
  }

  /** `_deserialize_typed` */
  function DecodeTyped(tag: Value, j: Value): Decoded<Py>
    requires j.Object?
    decreases j, 2
  {
    if tag == Str("list") then
      AsList(DecodeValues(j))
    else if tag == Str("dict") then
      if "items" !in j.fields then Yields(PDict(map[]))
      else if !j.fields["items"].Object? then Raises
      else AsDict(CollectItems(DecodeItems(j.fields["items"].fields, j)))
    else if tag == Str("bytes") then
      if "data" !in j.fields || !j.fields["data"].Str? then Raises
      else match Base64.Decode(j.fields["data"].s)
           case Some(bytes) => Yields(PBytes(bytes))
           case None => Open
    else if tag == Str("complex") then
      if "real" !in j.fields || "imag" !in j.fields then Raises
      else match (j.fields["real"], j.fields["imag"])
           case (Float(re), Float(im)) => Yields(PComplex(re, im))
           case _ => Open
    else if tag == Str("set") then
      AsSet(DecodeValues(j))
    else if tag == Str("pickle") then
      var path := Get(j.fields, "class", Str(""));
      if !path.Str? then Raises
      else if Pickled(path.s) then Open
      else Yields(Raw(j))
    else if tag in {Str("ndarray"), Str("tensor")} then
      Open
    else if tag == Str("repr") then
      Yields(Raw(Get(j.fields, "value", Str(""))))
    else
      Yields(Raw(j))
  }

  /** The members under "values" of a list or set. */
  function DecodeValues(j: Value): Decoded<seq<Py>>
    requires j.Object?
    decreases j, 1
  {
    if "values" !in j.fields then Yields([])
    else if !j.fields["values"].List? then Open
    else Collect(DecodeAll(j.fields["values"].items, j))
  }

  // ---- The round trip ----

  function NormAll(xs: seq<Py>, ghost whole: Py): (r: seq<Py>)
    requires forall i :: 0 <= i < |xs| ==> xs[i] < whole
    ensures |r| == |xs| && forall i :: 0 <= i < |xs| ==> r[i] == Norm(xs[i])
    decreases whole, 0
  {
    seq(|xs|, i requires 0 <= i < |xs| => Norm(xs[i]))
  }

  function NormItems(entries: map<string, Py>, ghost whole: Py): (r: map<string, Py>)
    requires forall k :: k in entries ==> entries[k] < whole
    ensures r.Keys == entries.Keys && forall k :: k in entries ==> r[k] == Norm(entries[k])
    decreases whole, 0
  {
    map k | k in entries :: Norm(entries[k])
  }

  /** Tuples come back as lists; nothing else changes. */
  function Norm(v: Py): Py
    decreases v, 1
  {
    match v
    case PList(items) => PList(NormAll(items, v))
    case PTuple(items) => PList(NormAll(items, v))
    case PDict(entries) => PDict(NormItems(entries, v))
    case _ => v
  }

  /** Python admits only hashable values into a set. */
  ghost predicate WellFormed(v: Py) {
    match v
    case PList(items) => forall i :: 0 <= i < |items| ==> WellFormed(items[i])
    case PTuple(items) => forall i :: 0 <= i < |items| ==> WellFormed(items[i])
    case PDict(entries) => forall k :: k in entries ==> WellFormed(entries[k])
    case PSet(members) => forall x :: x in members ==> Hashable(x)
    case _ => true
  }

  /** No set anywhere in the value has a tuple for a member. */
  ghost predicate NoTupleInSet(v: Py) {
    match v
    case PList(items) => forall i :: 0 <= i < |items| ==> NoTupleInSet(items[i])
    case PTuple(items) => forall i :: 0 <= i < |items| ==> NoTupleInSet(items[i])
    case PDict(entries) => forall k :: k in entries ==> NoTupleInSet(entries[k])
    case PSet(members) => forall x :: x in members ==> !x.PTuple?
    case _ => true
  }

  /** What decoding gives back. */
  ghost function Restored(v: Py): Decoded<Py> {
    if NoTupleInSet(v) then Yields(Norm(v)) else Raises
  }

  lemma CollectRestored(items: seq<Py>, ds: seq<Decoded<Py>>)
    requires |ds| == |items| && forall i :: 0 <= i < |ds| ==> ds[i] == Restored(items[i])
    ensures if forall i :: 0 <= i < |items| ==> NoTupleInSet(items[i])
            then Collect(ds).Yields? && |Collect(ds).value| == |items|
                 && forall i :: 0 <= i < |items| ==> Collect(ds).value[i] == Norm(items[i])
            else Collect(ds) == Raises
  {
    if i :| 0 <= i < |items| && !NoTupleInSet(items[i]) {
      assert ds[i].Raises?;
    }
  }

  lemma CollectItemsRestored(entries: map<string, Py>, ds: map<string, Decoded<Py>>)
    requires ds.Keys == entries.Keys && forall k :: k in ds ==> ds[k] == Restored(entries[k])
    ensures AsDict(CollectItems(ds)) == Restored(PDict(entries))
  {
    if k :| k in entries && !NoTupleInSet(entries[k]) {
      assert ds[k].Raises?;
    } else {
      assert forall k :: k in ds ==> ds[k].Yields?;
      assert CollectItems(ds).value == NormItems(entries, PDict(entries));
    }
  }

  lemma DecodeReadsTag(j: Value, tag: string)
    requires j.Object? && "__type__" in j.fields && j.fields["__type__"] == Str(tag) && tag != ""
    ensures Decode(j) == DecodeTyped(Str(tag), j)
  {
  }

  lemma ReadValues(tag: string, values: seq<Value>)
    ensures var j := Tagged(tag, "values", List(values));
            && (forall i :: 0 <= i < |values| ==> values[i] < j)
            && DecodeValues(j) == Collect(DecodeAll(values, j))
  {
    var j := Tagged(tag, "values", List(values));
    assert j.fields["values"] == List(values) && j.fields["values"] < j;
  }

  lemma DecodeTaggedList(values: seq<Value>)
    ensures var j := Tagged("list", "values", List(values));
            && (forall i :: 0 <= i < |values| ==> values[i] < j)
            && Decode(j) == AsList(Collect(DecodeAll(values, j)))
  {
    var j := Tagged("list", "values", List(values));
    ReadValues("list", values);
    assert "__type__" != "values";
    DecodeReadsTag(j, "list");
  }

  lemma DecodeTaggedSet(values: seq<Value>)
    ensures var j := Tagged("set", "values", List(values));
            && (forall i :: 0 <= i < |values| ==> values[i] < j)
            && Decode(j) == AsSet(Collect(DecodeAll(values, j)))
  {
    var j := Tagged("set", "values", List(values));
    ReadValues("set", values);
    assert "__type__" != "values";
    DecodeReadsTag(j, "set");
    TypedSet(j);
  }

  lemma TypedSet(j: Value)
    requires j.Object?
    ensures DecodeTyped(Str("set"), j) == AsSet(DecodeValues(j))
  {
    assert "set" != "list" && "set" != "dict" && "set" != "bytes" && "set" != "complex";
  }

  lemma DecodeTaggedDict(entries: map<string, Value>)
    ensures var j := Tagged("dict", "items", Object(entries));
            && (forall k :: k in entries ==> entries[k] < j)
            && Decode(j) == AsDict(CollectItems(DecodeItems(entries, j)))
  {
    var j := Tagged("dict", "items", Object(entries));
    assert "__type__" != "items" && "dict" != "list";
    assert j.fields["__type__"] == Str("dict") && j.fields["items"] == Object(entries);
    assert j.fields["items"] < j;
  }

  lemma {:induction false} BytesRoundTrip(bytes: seq<Base64.Byte>, order: Order)
    requires Enumerates(order)
    ensures Decode(Encode(PBytes(bytes), order)) == Yields(PBytes(bytes))
  {
    Base64.RoundTrip(bytes);
    var j := Encode(PBytes(bytes), order);
    assert "__type__" != "data" && "bytes" != "list" && "bytes" != "dict";
    assert j.fields["__type__"] == Str("bytes");
  }

  lemma {:induction false} ComplexRoundTrip(re: bv64, im: bv64, order: Order)
    requires Enumerates(order)
    ensures Decode(Encode(PComplex(re, im), order)) == Yields(PComplex(re, im))
  {
    var j := Encode(PComplex(re, im), order);
    assert "__type__" != "real" && "__type__" != "imag" && "real"[0] != "imag"[0];
    assert "complex" != "list" && "complex" != "dict" && "complex" != "bytes";
    assert j.fields["__type__"] == Str("complex") && j.fields["real"] == Float(re) && j.fields["imag"] == Float(im);
  }

  lemma SeqRoundTrip(items: seq<Py>, order: Order, v: Py)
    requires Enumerates(order) && (v == PList(items) || v == PTuple(items))
    requires forall i :: 0 <= i < |items| ==> Decode(Encode(items[i], order)) == Restored(items[i])
    ensures Decode(Encode(v, order)) == Restored(v)
  {
    var values := EncodeAll(items, order, v);
    DecodeTaggedList(values);
    var ds := DecodeAll(values, Tagged("list", "values", List(values)));
    CollectRestored(items, ds);
    assert NoTupleInSet(v) ==> Collect(ds).value == NormAll(items, v);
  }

  lemma DictRoundTrip(entries: map<string, Py>, order: Order)
    requires Enumerates(order)
    requires forall k :: k in entries ==> Decode(Encode(entries[k], order)) == Restored(entries[k])
    ensures Decode(Encode(PDict(entries), order)) == Restored(PDict(entries))
  {
    var encoded := EncodeItems(entries, order, PDict(entries));
    DecodeTaggedDict(encoded);
    CollectItemsRestored(entries, DecodeItems(encoded, Tagged("dict", "items", Object(encoded))));
  }

  lemma AsSetRestored(members: set<Py>, xs: seq<Py>, ys: seq<Py>)
    requires Lists(xs, members) && |ys| == |xs|
    requires forall i :: 0 <= i < |xs| ==> Hashable(xs[i]) && ys[i] == Norm(xs[i])
    ensures AsSet(Yields(ys)) == Restored(PSet(members))
  {
    if x :| x in members && x.PTuple? {
      var i :| 0 <= i < |xs| && xs[i] == x;
      assert !Hashable(ys[i]);
    } else {
      assert forall i :: 0 <= i < |xs| ==> ys[i] == xs[i];
      assert (set i | 0 <= i < |ys| :: ys[i]) == members;
    }
  }

  /** A set of atoms comes back whatever its order of iteration; a tuple among its members comes back as a list, which
      no set can hold. */
  lemma SetRoundTrip(members: set<Py>, order: Order)
    requires Enumerates(order)
    requires forall x :: x in members ==> Hashable(x) && NoTupleInSet(x) && Decode(Encode(x, order)) == Restored(x)
    ensures Decode(Encode(PSet(members), order)) == Restored(PSet(members))
  {
    var xs := order(members);
    assert Lists(xs, members);
    var values := EncodeAll(xs, order, PSet(members));
    DecodeTaggedSet(values);
    var ds := DecodeAll(values, Tagged("set", "values", List(values)));
    CollectRestored(xs, ds);
    AsSetRestored(members, xs, Collect(ds).value);
  }

  lemma {:induction false} HashableHasNoSet(v: Py)
    requires Hashable(v)
    ensures NoTupleInSet(v) && WellFormed(v)
  {
    if v.PTuple? {
      forall i | 0 <= i < |v.items| ensures NoTupleInSet(v.items[i]) && WellFormed(v.items[i]) {
        HashableHasNoSet(v.items[i]);
      }
    }
  }

  /** The round trip, exactly: decoding an encoded value gives it back with tuples turned into lists, unless a set in it
      has a tuple for a member; then decoding raises. Keys named `__type__` in the user's own dicts do no harm. */
  lemma {:induction false} RoundTrip(v: Py, order: Order)
    requires Enumerates(order) && WellFormed(v)
    ensures Decode(Encode(v, order)) == if NoTupleInSet(v) then Yields(Norm(v)) else Raises
    decreases v
  {
    match v
    case PBytes(bytes) => BytesRoundTrip(bytes, order);
    case PComplex(re, im) => ComplexRoundTrip(re, im, order);
    case PList(items) =>
      forall i | 0 <= i < |items| ensures Decode(Encode(items[i], order)) == Restored(items[i]) { RoundTrip(items[i], order); }
      SeqRoundTrip(items, order, v);
    case PTuple(items) =>
      forall i | 0 <= i < |items| ensures Decode(Encode(items[i], order)) == Restored(items[i]) { RoundTrip(items[i], order); }
      SeqRoundTrip(items, order, v);
    case PDict(entries) =>
      forall k | k in entries ensures Decode(Encode(entries[k], order)) == Restored(entries[k]) { RoundTrip(entries[k], order); }
      DictRoundTrip(entries, order);
    case PSet(members) =>
      forall x | x in members ensures NoTupleInSet(x) && Decode(Encode(x, order)) == Restored(x) {
        HashableHasNoSet(x);
        RoundTrip(x, order);
      }
      SetRoundTrip(members, order);
    case _ =>
  }

  /** Encodings tell values apart up to tuples and lists, also when two interpreters iterate sets differently. */
  lemma EncodingIsInjective(v: Py, w: Py, order: Order, order2: Order)
    requires Enumerates(order) && Enumerates(order2) && WellFormed(v) && WellFormed(w)
    requires NoTupleInSet(v) && Encode(v, order) == Encode(w, order2)
    ensures NoTupleInSet(w) && Norm(v) == Norm(w)
  {
    RoundTrip(v, order);
    RoundTrip(w, order2);
  }

  // ---- The outermost level ----

  lemma PositionalArgsRoundTrip(items: seq<Py>, order: Order)
    requires Enumerates(order) && WellFormed(PTuple(items))
    ensures Decode(EncodeArgs(PTuple(items), order)) == Restored(PTuple(items))
  {
    var values := EncodeAll(items, order, PTuple(items));
    var ds := DecodeAll(values, List(values));
    forall i | 0 <= i < |items| ensures ds[i] == Restored(items[i]) { RoundTrip(items[i], order); }
    CollectRestored(items, ds);
    assert NoTupleInSet(PTuple(items)) ==> Collect(ds).value == NormAll(items, PTuple(items));
  }

  // The encodings written out: what is tagged, with which tag, and under which keys.

  function EncodedItems(items: seq<Py>, order: Order): Value
    requires Enumerates(order)
  {
    List(seq(|items|, i requires 0 <= i < |items| => Encode(items[i], order)))
  }

  lemma ItemsEncoded(items: seq<Py>, order: Order, whole: Py)
    requires Enumerates(order) && forall i :: 0 <= i < |items| ==> items[i] < whole
    ensures List(EncodeAll(items, order, whole)) == EncodedItems(items, order)
  {
  }

  lemma SequenceForms(items: seq<Py>, order: Order)
    requires Enumerates(order)
    ensures Encode(PList(items), order) == Object(map["__type__" := Str("list"), "values" := EncodedItems(items, order)])
    ensures Encode(PTuple(items), order) == Encode(PList(items), order)
  {
    ItemsEncoded(items, order, PList(items));
    ItemsEncoded(items, order, PTuple(items));
  }

  lemma SetForm(members: set<Py>, order: Order)
    requires Enumerates(order)
    ensures Encode(PSet(members), order) ==
            Object(map["__type__" := Str("set"), "values" := EncodedItems(order(members), order)])
  {
    assert Lists(order(members), members);
    ItemsEncoded(order(members), order, PSet(members));
  }

  lemma DictForm(entries: map<string, Py>, encoded: map<string, Value>, order: Order)
    requires Enumerates(order) && encoded.Keys == entries.Keys
    requires forall k :: k in entries ==> encoded[k] == Encode(entries[k], order)
    ensures Encode(PDict(entries), order) == Object(map["__type__" := Str("dict"), "items" := Object(encoded)])
  {
    assert EncodeItems(entries, order, PDict(entries)) == encoded;
  }

  lemma OtherForms(bytes: seq<Base64.Byte>, re: bv64, im: bv64, order: Order)
    requires Enumerates(order)
    ensures Encode(PBytes(bytes), order) == Object(map["__type__" := Str("bytes"), "data" := Str(Base64.Encode(bytes))])
    ensures Encode(PComplex(re, im), order) ==
            Object(map["__type__" := Str("complex"), "real" := Float(re), "imag" := Float(im)])
  {
  }

  /** No tuple in a list, a tuple or a dict, at any depth. */
  ghost predicate NoTuple(v: Py) {
    match v
    case PTuple(_) => false
    case PList(items) => forall i :: 0 <= i < |items| ==> NoTuple(items[i])
    case PDict(entries) => forall k :: k in entries ==> NoTuple(entries[k])
    case _ => true
  }

  /** What comes back changed is a tuple, and nothing else: a value without one is its own normal form. */
  lemma {:induction false} OnlyTuplesChange(v: Py)
    ensures Norm(v) == v <==> NoTuple(v)
    ensures v.PTuple? ==> Norm(v) == Norm(PList(v.items))
  {
    match v
    case PList(items) =>
      forall i | 0 <= i < |items| { OnlyTuplesChange(items[i]); }
      assert Norm(v) == PList(NormAll(items, v));
      if Norm(v) == v {
        forall i | 0 <= i < |items| ensures NoTuple(items[i]) { assert NormAll(items, v)[i] == items[i]; }
      }
      if NoTuple(v) {
        assert NormAll(items, v) == items;
      }
    case PTuple(items) => assert NormAll(items, v) == NormAll(items, PList(items));
    case PDict(entries) =>
      forall k | k in entries { OnlyTuplesChange(entries[k]); }
      assert Norm(v) == PDict(NormItems(entries, v));
      if Norm(v) == v {
        forall k | k in entries ensures NoTuple(entries[k]) { assert NormItems(entries, v)[k] == entries[k]; }
      }
      if NoTuple(v) {
        assert NormItems(entries, v) == entries;
      }
    case _ =>
  }

  // ---- What the hypotheses and the tables mean ----

  lemma {:induction false} FirstPartIsUpToDot(a: string, rest: string)
    requires '.' !in a
    ensures FirstPart(a) == a && FirstPart(a + "." + rest) == a
  {
    if a == "" {
      assert (a + "." + rest)[0] == '.';
    } else {
      FirstPartIsUpToDot(a[1..], rest);
      var path := a + "." + rest;
      assert path[0] == a[0] && path[1..] == a[1..] + "." + rest;
    }
  }

  /** A class may be pickled exactly if it is in one of eight modules of the standard library, or in a module below one. */
  lemma PickledModules(mod: string, rest: string)
    requires '.' !in mod
    ensures Pickled(mod + "." + rest) <==>
              mod in {"builtins", "collections", "datetime", "decimal", "fractions", "numbers", "re", "uuid"}
  {
    FirstPartIsUpToDot(mod, rest);
  }

  /** Scalars, bytes and complex numbers can be members of a set, lists, dicts and sets cannot, and a tuple can if its items
      can. */
  lemma HashableValues(v: Py)
    ensures v.PList? || v.PDict? || v.PSet? ==> !Hashable(v)
    ensures v.PNone? || v.PBool? || v.PInt? || v.PFloat? || v.PStr? || v.PBytes? || v.PComplex? ==> Hashable(v)
    ensures v.PTuple? ==> (Hashable(v) <==> forall i :: 0 <= i < |v.items| ==> Hashable(v.items[i]))
  {
  }

  ghost function Listing(s: set<Py>): (xs: seq<Py>)
    ensures Lists(xs, s)
  {
    if s == {} then []
    else
      var x :| x in s;
      [x] + Listing(s - {x})
  }

  /** There are orders of iteration. */
  lemma OrdersExist()
    ensures exists order :: Enumerates(order)
  {
    ghost var order: Order := (s: set<Py>) => Listing(s);
    assert Enumerates(order);
  }
}
