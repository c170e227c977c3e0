/** Keyword arguments are encoded without a tag of their own (runtime/serialization.py:31-32), so an argument that is named
    `__type__` is read as one. This module says exactly which keyword arguments come back. */
module KeywordArgs {
  import opened Json
  import opened Serialization

  const TAG := "__type__"

  predicate Scalar(v: Py) {
    v.PNone? || v.PBool? || v.PInt? || v.PFloat? || v.PStr?
  }

  function TagOf(entries: map<string, Py>): Py {
    if TAG in entries then entries[TAG] else PNone
  }

  /** The truth value of an encoded argument: only scalars can be false. */
  predicate ReadsAsTag(v: Py) {
    match v
    case PNone => false
    case PBool(b) => b
    case PInt(n) => n != 0
    case PFloat(bits) => bits != 0 && bits != 0x8000_0000_0000_0000
    case PStr(s) => s != ""
    case _ => true
  }

  /** What the decoder takes a tag for; the branches of `Elsewhere` are left open by the serializer's model. */
  datatype Meaning = Dict | OtherKind | Repr | Pickle | Refused | Elsewhere | Unknown

  function MeaningOf(tag: string): Meaning {
    if tag == "dict" then Dict
    else if tag == "list" || tag == "bytes" || tag == "complex" || tag == "set" then OtherKind
    else if tag == "repr" then Repr
    else if tag == "pickle" then Pickle
    else if tag == "ndarray" || tag == "tensor" then Elsewhere
    else Unknown
  }

  /** The tag "pickle" is as good as unknown without a class that may be pickled; a class that is no string raises. */
  function PickleMeaning(entries: map<string, Py>): Meaning {
    if "class" !in entries then Unknown
    else if !entries["class"].PStr? then Refused
    else if Pickled(entries["class"].s) then Elsewhere
    else Unknown
  }

  /** A tag that is no string means nothing to the decoder. */
  function TagMeaning(entries: map<string, Py>): Meaning {
    if !TagOf(entries).PStr? then Unknown
    else if MeaningOf(TagOf(entries).s).Pickle? then PickleMeaning(entries)
    else MeaningOf(TagOf(entries).s)
  }

  /** The two keys of an encoded dict. */
  predicate LooksLikeDict(entries: map<string, Py>) {
    TagMeaning(entries).Dict? && entries.Keys == {TAG, "items"} && entries["items"].PDict?
  }

  /** Decoding reaches an array or tensor tag, or the pickle of an allowed class, directly or through arguments that look like
      encoded dicts. */
  predicate LeavesModel(entries: map<string, Py>)
    decreases PDict(entries)
  {
    || TagMeaning(entries).Elsewhere?
    || (LooksLikeDict(entries) && LeavesModel(entries["items"].entries))
  }

  /** What a caller can look at before the call. No argument reads as a tag; or the arguments look like an encoded dict whose
      own items come back; or the tag is unknown and every argument is a scalar. */
  ghost predicate ComesBack(entries: map<string, Py>)
    decreases PDict(entries)
  {
    if !ReadsAsTag(TagOf(entries)) then NoTupleInSet(PDict(entries))
    else
      match TagMeaning(entries)
      case Dict => LooksLikeDict(entries) && ComesBack(entries["items"].entries)
      case Unknown => AllScalars(entries)
      case _ => false
  }

  predicate AllScalars(entries: map<string, Py>) {
    forall k :: k in entries ==> Scalar(entries[k])
  }

  function Encoded(entries: map<string, Py>, order: Order): map<string, Value>
    requires Enumerates(order)
  {
    EncodeItems(entries, order, PDict(entries))
  }

  ghost predicate RoundTrips(entries: map<string, Py>, order: Order)
    requires Enumerates(order)
  {
    Decode(EncodeArgs(PDict(entries), order)) == Yields(Norm(PDict(entries)))
  }

  // ---- A raw encoding is the value itself only for scalars ----

  /** How far a value can be followed through "items". */
  function Depth(v: Py): nat {
    if v.PDict? && "items" in v.entries then 1 + Depth(v.entries["items"]) else 0
  }

  lemma {:induction false} NormKeepsDepth(v: Py)
    ensures Depth(Norm(v)) == Depth(v)
  {
    if v.PDict? && "items" in v.entries {
      NormKeepsDepth(v.entries["items"]);
    } else {
      assert Depth(Norm(v)) == 0;
    }
  }

  lemma EncodedDict(entries: map<string, Py>, order: Order)
    requires Enumerates(order)
    ensures var r := Raw(Encode(PDict(entries), order));
            && r.PDict? && r.entries.Keys == {TAG, "items"} && r.entries[TAG] == PStr("dict")
            && r.entries["items"] == Raw(Object(Encoded(entries, order)))
  {
    assert TAG != "items";
    var j := Encode(PDict(entries), order);
    assert j == Object(map[TAG := Str("dict"), "items" := Object(Encoded(entries, order))]);
  }

  /** Encoding a dict takes it deeper by at least one. */
  lemma {:induction false} EncodingDeepens(v: Py, order: Order)
    requires Enumerates(order)
    ensures Depth(Raw(Encode(v, order))) >= Depth(v)
    ensures v.PDict? ==> Depth(Raw(Encode(v, order))) > Depth(v)
    decreases v
  {
    if v.PDict? {
      EncodedDict(v.entries, order);
      var inner := Raw(Object(Encoded(v.entries, order)));
      if "items" in v.entries {
        EncodingDeepens(v.entries["items"], order);
        assert inner.entries["items"] == Raw(Encode(v.entries["items"], order));
      } else {
        assert Depth(v) == 0;
      }
    } else {
      assert Depth(v) == 0;
    }
  }

  lemma RawIsNormOnlyForScalars(v: Py, order: Order)
    requires Enumerates(order)
    ensures Raw(Encode(v, order)) == Norm(v) <==> Scalar(v)
  {
    if v.PDict? {
      NormKeepsDepth(v);
      EncodingDeepens(v, order);
    }
  }

  // ---- What each kind of tag does ----

  lemma ReadsTag(entries: map<string, Py>, order: Order)
    requires Enumerates(order)
    ensures var j := EncodeArgs(PDict(entries), order);
            && j == Object(Encoded(entries, order))
            && (Truthy(Get(j.fields, TAG, Null)) <==> ReadsAsTag(TagOf(entries)))
            && (ReadsAsTag(TagOf(entries)) ==> TAG in j.fields && Decode(j) == DecodeTyped(j.fields[TAG], j))
            && (TagOf(entries).PStr? ==> TAG in j.fields && j.fields[TAG] == Str(TagOf(entries).s))
            && (TAG in j.fields && j.fields[TAG].Str? ==> TagOf(entries) == PStr(j.fields[TAG].s))
  {
    EncodingIsTruthy(TagOf(entries), order);
  }

  lemma EncodingIsTruthy(v: Py, order: Order)
    requires Enumerates(order)
    ensures Truthy(Encode(v, order)) <==> ReadsAsTag(v)
    ensures Encode(v, order).Str? <==> v.PStr?
    ensures v.PStr? ==> Encode(v, order) == Str(v.s)
  {
    if v.PList? || v.PTuple? || v.PSet? || v.PDict? || v.PBytes? || v.PComplex? {
      EncodedCarriesTag(v, order);
    }
  }

  /** What is no scalar is encoded as an object with a tag that names its kind. */
  lemma EncodedCarriesTag(v: Py, order: Order)
    requires Enumerates(order) && !Scalar(v)
    ensures var j := Encode(v, order);
            && j.Object? && TAG in j.fields && j.fields[TAG].Str?
            && j.fields[TAG].s in {"list", "dict", "bytes", "complex", "set"}
            && (j.fields[TAG].s == "dict" <==> v.PDict?)
  {
    var j := Encode(v, order);
    assert TAG != "values" && TAG != "items" && TAG != "data" && TAG != "real" && TAG != "imag";
    assert "dict" != "list" && "dict" != "set";
  }

  /** No tag: every argument is decoded on its own. */
  lemma UntaggedComesBack(entries: map<string, Py>, order: Order)
    requires Enumerates(order) && WellFormed(PDict(entries)) && !ReadsAsTag(TagOf(entries))
    ensures Decode(EncodeArgs(PDict(entries), order)) == Restored(PDict(entries))
  {
    var encoded := Encoded(entries, order);
    ReadsTag(entries, order);
    var ds := DecodeItems(encoded, Object(encoded));
    forall k | k in entries ensures ds[k] == Restored(entries[k]) { RoundTrip(entries[k], order); }
    CollectItemsRestored(entries, ds);
  }

  /** A tag for another kind of value gives a value of that kind, or none. */
  lemma OtherKindIsLost(entries: map<string, Py>, order: Order)
    requires Enumerates(order) && TagMeaning(entries).OtherKind?
    ensures !RoundTrips(entries, order)
  {
    ReadsTag(entries, order);
    var j := EncodeArgs(PDict(entries), order);
    assert Decode(j) == DecodeTyped(Str(TagOf(entries).s), j);
    TypedIsNoDict(TagOf(entries).s, j);
  }

  lemma TypedIsNoDict(tag: string, j: Value)
    requires j.Object? && MeaningOf(tag).OtherKind?
    ensures var d := DecodeTyped(Str(tag), j); d.Yields? ==> !d.value.PDict?
  {
  }

  lemma TypedRepr(j: Value)
    requires j.Object?
    ensures DecodeTyped(Str("repr"), j) == Yields(Raw(Get(j.fields, "value", Str(""))))
  {
    assert "repr" != "list" && "repr" != "dict" && "repr" != "bytes" && "repr" != "complex" && "repr" != "set";
    assert "repr" != "ndarray" && "repr" != "tensor" && "repr" != "pickle";
  }

  lemma ReprIsLost(entries: map<string, Py>, order: Order)
    requires Enumerates(order) && TagOf(entries) == PStr("repr")
    ensures !RoundTrips(entries, order)
  {
    ReadsTag(entries, order);
    var j := EncodeArgs(PDict(entries), order);
    TypedRepr(j);
    if "value" in entries {
      RawIsNeverRepr(entries["value"], order);
    }
    assert Norm(PDict(entries)).entries[TAG] == PStr("repr");
  }

  lemma RawIsNeverRepr(v: Py, order: Order)
    requires Enumerates(order)
    ensures var r := Raw(Encode(v, order)); r.PDict? ==> TAG in r.entries && r.entries[TAG] != PStr("repr")
  {
    if !Scalar(v) {
      EncodedCarriesTag(v, order);
    }
  }

  lemma TypedPickle(j: Value)
    requires j.Object?
    ensures var path := Get(j.fields, "class", Str(""));
            DecodeTyped(Str("pickle"), j) == if !path.Str? then Raises else if Pickled(path.s) then Open else Yields(Raw(j))
  {
    assert "pickle" != "list" && "pickle" != "dict" && "pickle" != "bytes" && "pickle" != "complex" && "pickle" != "set";
  }

  lemma EmptyIsNotPickled()
    ensures !Pickled("")
  {
    assert FirstPart("") == "";
    assert |"builtins"| > 0 && |"collections"| > 0 && |"datetime"| > 0 && |"decimal"| > 0 && |"fractions"| > 0
           && |"numbers"| > 0 && |"re"| > 0 && |"uuid"| > 0;
  }

  /** The tag "pickle" means to the decoder what `PickleMeaning` says. */
  lemma PickleTag(entries: map<string, Py>, order: Order)
    requires Enumerates(order) && TagOf(entries) == PStr("pickle")
    ensures var j := EncodeArgs(PDict(entries), order);
            Decode(j) == match PickleMeaning(entries)
                         case Refused => Raises
                         case Elsewhere => Open
                         case _ => Yields(Raw(j))
  {
    ReadsTag(entries, order);
    var j := EncodeArgs(PDict(entries), order);
    TypedPickle(j);
    EmptyIsNotPickled();
    if "class" in entries {
      EncodingIsTruthy(entries["class"], order);
      assert j.fields["class"] == Encode(entries["class"], order);
    } else {
      assert "class" !in j.fields;
    }
  }

  lemma PickleIsTheWord(entries: map<string, Py>)
    requires TagOf(entries).PStr? && MeaningOf(TagOf(entries).s).Pickle?
    ensures TagOf(entries) == PStr("pickle")
  {
  }

  lemma RefusedIsLost(entries: map<string, Py>, order: Order)
    requires Enumerates(order) && TagMeaning(entries).Refused?
    ensures !RoundTrips(entries, order)
  {
    PickleIsTheWord(entries);
    PickleTag(entries, order);
  }

  /** An unknown tag: the encoded arguments are returned as they are. */
  lemma UnknownTagIsRaw(tag: Value, j: Value)
    requires j.Object? && (tag.Str? ==> MeaningOf(tag.s).Unknown?)
    ensures DecodeTyped(tag, j) == Yields(Raw(j))
  {
  }

  lemma RawArgument(entries: map<string, Py>, order: Order, j: Value, k: string)
    requires Enumerates(order) && j == Object(Encoded(entries, order)) && k in entries
    ensures RawItems(j.fields, j)[k] == NormItems(entries, PDict(entries))[k] <==> Scalar(entries[k])
  {
    RawIsNormOnlyForScalars(entries[k], order);
  }

  lemma RawKeys(entries: map<string, Py>, order: Order, j: Value)
    requires Enumerates(order) && j == Object(Encoded(entries, order))
    ensures RawItems(j.fields, j).Keys == entries.Keys == NormItems(entries, PDict(entries)).Keys
    ensures Raw(j) == PDict(RawItems(j.fields, j)) && Norm(PDict(entries)) == PDict(NormItems(entries, PDict(entries)))
  {
  }

  lemma SameMap(a: map<string, Py>, b: map<string, Py>, keys: set<string>)
    requires a.Keys == b.Keys == keys
    ensures a == b <==> forall k :: k in keys ==> a[k] == b[k]
  {
  }

  lemma RawArguments(entries: map<string, Py>, order: Order, j: Value)
    requires Enumerates(order) && j == Object(Encoded(entries, order))
    ensures Raw(j) == Norm(PDict(entries)) <==> AllScalars(entries)
  {
    var raw, norm := RawItems(j.fields, j), NormItems(entries, PDict(entries));
    RawKeys(entries, order, j);
    forall k | k in entries ensures raw[k] == norm[k] <==> Scalar(entries[k]) { RawArgument(entries, order, j, k); }
    SameMap(raw, norm, entries.Keys);
  }

  lemma UnknownTagNeedsScalars(entries: map<string, Py>, order: Order)
    requires Enumerates(order) && ReadsAsTag(TagOf(entries)) && TagMeaning(entries).Unknown?
    ensures RoundTrips(entries, order) <==> AllScalars(entries)
  {
    ReadsTag(entries, order);
    var j := EncodeArgs(PDict(entries), order);
    if TagOf(entries).PStr? && MeaningOf(TagOf(entries).s).Pickle? {
      PickleIsTheWord(entries);
      PickleTag(entries, order);
    } else {
      UnknownTagIsRaw(j.fields[TAG], j);
    }
    RawArguments(entries, order, j);
  }

  lemma TypedDict(j: Value)
    requires j.Object? && "items" in j.fields && j.fields["items"].Object?
    ensures forall k :: k in j.fields["items"].fields ==> j.fields["items"].fields[k] < j
    ensures DecodeTyped(Str("dict"), j) == AsDict(CollectItems(DecodeItems(j.fields["items"].fields, j)))
  {
    assert j.fields["items"] < j;
    assert "dict" != "list";
  }

  lemma TypedDictWithoutItems(j: Value)
    requires j.Object? && ("items" in j.fields ==> !j.fields["items"].Object?)
    ensures DecodeTyped(Str("dict"), j) == if "items" in j.fields then Raises else Yields(PDict(map[]))
  {
    assert "dict" != "list";
  }

  lemma TwoKeys(m: map<string, Py>, tag: Py, items: Py)
    requires TAG in m && "items" in m
    ensures map[TAG := tag, "items" := items] == m <==> m.Keys == {TAG, "items"} && m[TAG] == tag && m["items"] == items
  {
    assert TAG != "items";
    var two := map[TAG := tag, "items" := items];
    assert two.Keys == {TAG, "items"} && two[TAG] == tag && two["items"] == items;
  }

  lemma CollectParts(ds: map<string, Decoded<Py>>, d: Decoded<Py>)
    requires ds == map[TAG := Yields(PStr("dict")), "items" := d]
    ensures d.Yields? ==> CollectItems(ds) == Yields(map[TAG := PStr("dict"), "items" := d.value])
    ensures !d.Yields? ==> !CollectItems(ds).Yields?
  {
    assert TAG != "items" && ds["items"] == d && ds.Keys == {TAG, "items"};
    if d.Yields? {
      var got := CollectItems(ds).value;
      assert got.Keys == {TAG, "items"} && got[TAG] == PStr("dict") && got["items"] == d.value;
      TwoKeys(got, PStr("dict"), d.value);
    }
  }

  /** Two decoded parts, `d` under "items", give back the arguments if and only if they are their two parts. */
  lemma PartsMatch(entries: map<string, Py>, inner: map<string, Py>, ds: map<string, Decoded<Py>>, d: Decoded<Py>)
    requires TagOf(entries) == PStr("dict") && "items" in entries && entries["items"] == PDict(inner)
    requires ds == map[TAG := Yields(PStr("dict")), "items" := d]
    ensures AsDict(CollectItems(ds)) == Yields(Norm(PDict(entries))) <==>
            entries.Keys == {TAG, "items"} && d == Yields(Norm(PDict(inner)))
  {
    var norm := NormItems(entries, PDict(entries));
    assert norm.Keys == entries.Keys && norm[TAG] == PStr("dict") && norm["items"] == Norm(PDict(inner));
    CollectParts(ds, d);
    if d.Yields? {
      TwoKeys(norm, PStr("dict"), d.value);
      assert AsDict(CollectItems(ds)) == Yields(PDict(map[TAG := PStr("dict"), "items" := d.value]));
      assert Norm(PDict(entries)) == PDict(norm);
    }
  }

  lemma ItemsDecode(entries: map<string, Py>, order: Order, ds: map<string, Decoded<Py>>)
    requires Enumerates(order) && TagOf(entries) == PStr("dict") && "items" in entries && entries["items"].PDict?
    requires ds.Keys == Encode(entries["items"], order).fields.Keys
    requires forall k :: k in ds ==> ds[k] == Decode(Encode(entries["items"], order).fields[k])
    ensures AsDict(CollectItems(ds)) == Yields(Norm(PDict(entries))) <==>
            LooksLikeDict(entries) && RoundTrips(entries["items"].entries, order)
  {
    var inner := entries["items"].entries;
    assert TAG != "items";
    assert Encode(PDict(inner), order) == Object(map[TAG := Str("dict"), "items" := Object(Encoded(inner, order))]);
    var d := Decode(EncodeArgs(PDict(inner), order));
    assert ds == map[TAG := Yields(PStr("dict")), "items" := d];
    PartsMatch(entries, inner, ds, d);
  }

  lemma NoItemsIsLost(entries: map<string, Py>, order: Order)
    requires Enumerates(order) && TagOf(entries) == PStr("dict") && ("items" in entries ==> Scalar(entries["items"]))
    ensures !RoundTrips(entries, order)
  {
    ReadsTag(entries, order);
    TypedDictWithoutItems(EncodeArgs(PDict(entries), order));
    assert TAG in NormItems(entries, PDict(entries));
  }

  /** Items of another kind bring their own tag with them. */
  lemma OtherItemsAreLost(entries: map<string, Py>, order: Order)
    requires Enumerates(order) && TagOf(entries) == PStr("dict")
    requires "items" in entries && !Scalar(entries["items"]) && !entries["items"].PDict?
    ensures !RoundTrips(entries, order)
  {
    ReadsTag(entries, order);
    EncodedCarriesTag(entries["items"], order);
    var j := EncodeArgs(PDict(entries), order);
    TypedDict(j);
    var fields := Encode(entries["items"], order).fields;
    var ds := DecodeItems(fields, j);
    assert ds[TAG] == Yields(PStr(fields[TAG].s));
    assert NormItems(entries, PDict(entries))[TAG] == PStr("dict");
  }

  lemma DictItemsDecide(entries: map<string, Py>, order: Order)
    requires Enumerates(order) && TagOf(entries) == PStr("dict") && "items" in entries && entries["items"].PDict?
    ensures RoundTrips(entries, order) <==> LooksLikeDict(entries) && RoundTrips(entries["items"].entries, order)
  {
    ReadsTag(entries, order);
    EncodedCarriesTag(entries["items"], order);
    var j := EncodeArgs(PDict(entries), order);
    TypedDict(j);
    ItemsDecode(entries, order, DecodeItems(Encode(entries["items"], order).fields, j));
  }

  /** The tag "dict": the argument "items" is decoded key by key in place of the arguments. */
  lemma DictTagReadsItems(entries: map<string, Py>, order: Order)
    requires Enumerates(order) && TagOf(entries) == PStr("dict")
    ensures RoundTrips(entries, order) <==> LooksLikeDict(entries) && RoundTrips(entries["items"].entries, order)
  {
    if "items" !in entries || Scalar(entries["items"]) {
      NoItemsIsLost(entries, order);
    } else if !entries["items"].PDict? {
      OtherItemsAreLost(entries, order);
    } else {
      DictItemsDecide(entries, order);
    }
  }

  // ---- The result ----

  lemma {:induction false} RoundTripsExactly(entries: map<string, Py>, order: Order)
    requires Enumerates(order) && WellFormed(PDict(entries)) && !LeavesModel(entries)
    ensures RoundTrips(entries, order) <==> ComesBack(entries)
    decreases PDict(entries)
  {
    if !ReadsAsTag(TagOf(entries)) {
      UntaggedComesBack(entries, order);
    } else {
      match TagMeaning(entries)
      case Dict =>
        DictTagReadsItems(entries, order);
        if LooksLikeDict(entries) {
          RoundTripsExactly(entries["items"].entries, order);
        }
      case OtherKind => OtherKindIsLost(entries, order);
      case Repr => ReprIsLost(entries, order);
      case Refused => RefusedIsLost(entries, order);
      case Unknown => UnknownTagNeedsScalars(entries, order);
    }
  }

  /** Keyword arguments come back if and only if no argument reads as a tag (and no set holds a tuple), or they look like an
      encoded dict whose items come back, or the tag is unknown and all of them are scalars. */
  lemma {:induction false} KeywordArgsRoundTrip(entries: map<string, Py>, order: Order)
    requires Enumerates(order) && WellFormed(PDict(entries)) && !LeavesModel(entries)
    ensures Decode(EncodeArgs(PDict(entries), order)) == Yields(Norm(PDict(entries))) <==> ComesBack(entries)
  {
    RoundTripsExactly(entries, order);
  }

  lemma ListTag()
    ensures var args := map[TAG := PStr("list")]; !ComesBack(args) && !LeavesModel(args) && WellFormed(PDict(args))
  {
    assert MeaningOf("list").OtherKind?;
  }

  lemma NoteTag()
    ensures var args := map[TAG := PStr("note")]; ComesBack(args) && !LeavesModel(args) && WellFormed(PDict(args))
  {
    assert "note"[0] == 'n' && "note" != "list" && "note" != "dict" && "note" != "repr";
    assert MeaningOf("note").Unknown?;
  }

  lemma DictTag()
    ensures var args := map[TAG := PStr("dict"), "items" := PDict(map[])];
            ComesBack(args) && !LeavesModel(args) && WellFormed(PDict(args))
  {
    var args := map[TAG := PStr("dict"), "items" := PDict(map[])];
    assert TAG != "items" && args.Keys == {TAG, "items"};
    assert ComesBack(map[]) && !LeavesModel(map[]);
    assert LooksLikeDict(args);
  }

  /** One argument is lost, one comes back with its unknown tag, and two come back only because they happen to look like an
      encoded dict. */
  lemma KeywordArgsWitnesses(order: Order, lost: map<string, Py>, noted: map<string, Py>, nested: map<string, Py>)
    requires Enumerates(order) && lost == map[TAG := PStr("list")] && noted == map[TAG := PStr("note")]
    requires nested == map[TAG := PStr("dict"), "items" := PDict(map[])]
    ensures !RoundTrips(lost, order) && RoundTrips(noted, order) && RoundTrips(nested, order)
  {
    ListTag();
    RoundTripsExactly(lost, order);
    NoteTag();
    RoundTripsExactly(noted, order);
    DictTag();
    RoundTripsExactly(nested, order);
  }
}
