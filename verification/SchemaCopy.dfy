/** The deep copy of a JSON schema: a shallow copy of the struct, then one field after the other is given objects of
    its own, recursively. Pointers, slices and maps are objects; an element of a slice of structs, or a value of a
    map of structs, is the object that stores it. The fields of the struct are grouped into records by what they
    refer to. Acyclic schemas may share parts. */
module SchemaCopy {
  import opened Base

  type Byte = bv8

  class Int64 {
    var value: int
    constructor (value: int)
      ensures this.value == value
    {
      this.value := value;
    }
  }

  /** `apiextensionsv1.JSON`: raw bytes, or nil. */
  class JSON {
    var raw: array?<Byte>
    constructor (raw: array?<Byte>)
      ensures this.raw == raw
    {
      this.raw := raw;
    }
  }

  class StringMap {
    var entries: map<string, string>
    constructor (entries: map<string, string>)
      ensures this.entries == entries
    {
      this.entries := entries;
    }
  }

  /** `VariableSchemaMetadata` */
  class Metadata {
    var labels: StringMap?
    var annotations: StringMap?
    constructor (labels: StringMap?, annotations: StringMap?)
      ensures this.labels == labels && this.annotations == annotations
    {
      this.labels, this.annotations := labels, annotations;
    }
  }

  /** `ValidationRule`: strings only. */
  datatype ValidationRule = ValidationRule(
    rule: string, message: string, messageExpression: string, reason: string, fieldPath: string)

  class SchemaMap {
    var entries: map<string, Schema>
    constructor (entries: map<string, Schema>)
      ensures this.entries == entries
    {
      this.entries := entries;
    }
  }

  // ----- The fields of `JSONSchemaProps` -----

  /** Fields that hold values. */
  datatype Scalars = Scalars(
    description: string, kind: string, uniqueItems: bool, format: string, pattern: string,
    exclusiveMaximum: bool, exclusiveMinimum: bool, xPreserveUnknownFields: bool, xIntOrString: bool)

  /** Two pointers to numbers, such as `maxItems` and `minItems`. */
  datatype Range<T> = Range(max: T, min: T)

  /** The pointers to numbers: `maximum` and `minimum` are the range of the value. */
  datatype Bounds<T> = Bounds(properties: Range<T>, items: Range<T>, length: Range<T>, value: Range<T>)

  datatype JSONRefs = JSONRefs(example: JSON?, default: JSON?, enum: array?<JSON>)

  datatype OtherRefs = OtherRefs(required: array?<string>, xValidations: array?<ValidationRule>, xMetadata: Metadata?)

  /** References to schemas. */
  datatype Children = Children(
    properties: SchemaMap?,
    additionalProperties: Schema?, items: Schema?, not: Schema?,
    allOf: array?<Schema>, oneOf: array?<Schema>, anyOf: array?<Schema>)

  datatype References = References(bounds: Bounds<Int64?>, json: JSONRefs, other: OtherRefs, children: Children)

  const NIL_RANGE: Range<Int64?> := Range(null, null)
  const NIL_REFERENCES := References(
    Bounds(NIL_RANGE, NIL_RANGE, NIL_RANGE, NIL_RANGE), JSONRefs(null, null, null), OtherRefs(null, null, null),
    Children(null, null, null, null, null, null, null))

  /** `JSONSchemaProps` */
  class Schema {
    var scalars: Scalars
    var refs: References

    /** The zero struct. */
    constructor () {
      scalars := Scalars("", "", false, "", "", false, false, false, false);
      refs := NIL_REFERENCES;
    }

    /** The schema has value `v`, and all it is made of is in `S`. Only an acyclic schema has a value; parts of it
        may be shared. The quantifier says nothing; it keeps the definition folded until a proof mentions `At`. */
    ghost predicate Is(v: SchemaValue, S: set<object>)
      reads S
      decreases v, 2
    {
      forall i {:trigger At(i)} :: At(i) ==>
        this in S && scalars == v.scalars && RefsAre(refs, v, S)
    }
  }

  predicate At(i: int) { true }

  // ----- Values: what the structure says, with nil kept apart from empty -----

  /** The bytes of a JSON value, or none. */
  type JSONValue = Option<seq<Byte>>

  datatype MetadataValue = MetadataValue(labels: Option<map<string, string>>, annotations: Option<map<string, string>>)

  datatype JSONValues = JSONValues(example: Option<JSONValue>, default: Option<JSONValue>, enum: Option<seq<JSONValue>>)

  datatype OtherValues = OtherValues(
    required: Option<seq<string>>, xValidations: Option<seq<ValidationRule>>, xMetadata: Option<MetadataValue>)

  datatype SchemaValue = SchemaValue(
    scalars: Scalars, bounds: Bounds<Option<int>>, json: JSONValues, other: OtherValues,
    properties: MapValue,
    additionalProperties: Option<SchemaValue>, items: Option<SchemaValue>, not: Option<SchemaValue>,
    allOf: SliceValue, oneOf: SliceValue, anyOf: SliceValue)

  datatype SliceValue = NilSlice | Slice(elements: seq<SchemaValue>)

  datatype MapValue = NilMap | Map(entries: map<string, SchemaValue>)

  // ----- When an object has a value: every object it is made of is in `S` -----

  ghost predicate IntIs(p: Int64?, v: Option<int>, S: set<object>) reads S {
    (p == null <==> v.None?) && (p != null ==> p in S && p.value == v.value)
  }

  ghost predicate RangeIs(r: Range<Int64?>, v: Range<Option<int>>, S: set<object>) reads S {
    forall i {:trigger At(i)} :: At(i) ==> IntIs(r.max, v.max, S) && IntIs(r.min, v.min, S)
  }

  ghost predicate BoundsAre(b: Bounds<Int64?>, v: Bounds<Option<int>>, S: set<object>) reads S {
    && RangeIs(b.properties, v.properties, S) && RangeIs(b.items, v.items, S)
    && RangeIs(b.length, v.length, S) && RangeIs(b.value, v.value, S)
  }

  /** A slice of values. */
  ghost predicate ArrayIs<T>(a: array?<T>, v: Option<seq<T>>, S: set<object>) reads S {
    (a == null <==> v.None?) && (a != null ==> a in S && a[..] == v.value)
  }

  ghost predicate JSONIs(j: JSON, v: JSONValue, S: set<object>) reads S {
    j in S && ArrayIs(j.raw, v, S)
  }

  ghost predicate JSONPointerIs(j: JSON?, v: Option<JSONValue>, S: set<object>) reads S {
    (j == null <==> v.None?) && (j != null ==> JSONIs(j, v.value, S))
  }

  ghost predicate JSONsAre(a: array?<JSON>, v: Option<seq<JSONValue>>, S: set<object>) reads S {
    && (a == null <==> v.None?)
    && (a != null ==> a in S && a.Length == |v.value| && forall i :: 0 <= i < a.Length ==> JSONIs(a[i], v.value[i], S))
  }

  ghost predicate StringMapIs(m: StringMap?, v: Option<map<string, string>>, S: set<object>) reads S {
    (m == null <==> v.None?) && (m != null ==> m in S && m.entries == v.value)
  }

  ghost predicate MetadataIs(m: Metadata?, v: Option<MetadataValue>, S: set<object>) reads S {
    && (m == null <==> v.None?)
    && (m != null ==>
          && m in S && StringMapIs(m.labels, v.value.labels, S)
          && StringMapIs(m.annotations, v.value.annotations, S))
  }

  ghost predicate JSONRefsAre(r: JSONRefs, v: JSONValues, S: set<object>) reads S {
    forall i {:trigger At(i)} :: At(i) ==>
      JSONPointerIs(r.example, v.example, S) && JSONPointerIs(r.default, v.default, S) && JSONsAre(r.enum, v.enum, S)
  }

  ghost predicate OtherRefsAre(r: OtherRefs, v: OtherValues, S: set<object>) reads S {
    forall i {:trigger At(i)} :: At(i) ==>
      && ArrayIs(r.required, v.required, S) && ArrayIs(r.xValidations, v.xValidations, S)
      && MetadataIs(r.xMetadata, v.xMetadata, S)
  }

  ghost predicate PointerIs(p: Schema?, v: Option<SchemaValue>, S: set<object>)
    reads S
    decreases v, 0
  {
    (p == null <==> v.None?) && (p != null ==> p.Is(v.value, S))
  }

  ghost predicate AllAre(cs: seq<Schema>, vs: seq<SchemaValue>, S: set<object>)
    reads S
    decreases vs, 0
  {
    |cs| == |vs| && forall i :: 0 <= i < |cs| ==> cs[i].Is(vs[i], S)
  }

  ghost predicate SliceIs(a: array?<Schema>, v: SliceValue, S: set<object>)
    reads S
    decreases v, 0
  {
    (a == null <==> v.NilSlice?) && (a != null ==> a in S && AllAre(a[..], v.elements, S))
  }

  ghost predicate EntriesAre(m: map<string, Schema>, v: map<string, SchemaValue>, S: set<object>)
    reads S
    decreases Map(v), 0
  {
    m.Keys == v.Keys && forall k <- v :: m[k].Is(v[k], S)
  }

  ghost predicate MapIs(p: SchemaMap?, v: MapValue, S: set<object>)
    reads S
    decreases v, 1
  {
    (p == null <==> v.NilMap?) && (p != null ==> p in S && EntriesAre(p.entries, v.entries, S))
  }

  ghost predicate ChildrenAre(k: Children, v: SchemaValue, S: set<object>)
    reads S
    decreases v, 0
  {
    && MapIs(k.properties, v.properties, S)
    && PointerIs(k.additionalProperties, v.additionalProperties, S)
    && PointerIs(k.items, v.items, S) && PointerIs(k.not, v.not, S)
    && SliceIs(k.allOf, v.allOf, S) && SliceIs(k.oneOf, v.oneOf, S) && SliceIs(k.anyOf, v.anyOf, S)
  }

  ghost predicate RefsAre(r: References, v: SchemaValue, S: set<object>)
    reads S
    decreases v, 1
  {
    && BoundsAre(r.bounds, v.bounds, S) && JSONRefsAre(r.json, v.json, S) && OtherRefsAre(r.other, v.other, S)
    && ChildrenAre(r.children, v, S)
  }

  lemma Unfold(c: Schema, v: SchemaValue, S: set<object>)
    requires c.Is(v, S)
    ensures c in S && c.scalars == v.scalars && RefsAre(c.refs, v, S)
  {
    assert At(0);
  }

  lemma Fold(c: Schema, v: SchemaValue, S: set<object>)
    requires c in S && c.scalars == v.scalars && RefsAre(c.refs, v, S)
    ensures c.Is(v, S)
  {
  }

  // ----- What has a value in a set of objects has it in every larger set -----

  lemma RangeIsInMore(r: Range<Int64?>, v: Range<Option<int>>, S: set<object>, S': set<object>)
    requires RangeIs(r, v, S) && S <= S'
    ensures RangeIs(r, v, S')
  {
  }

  lemma BoundsAreInMore(b: Bounds<Int64?>, v: Bounds<Option<int>>, S: set<object>, S': set<object>)
    requires BoundsAre(b, v, S) && S <= S'
    ensures BoundsAre(b, v, S')
  {
    RangeIsInMore(b.properties, v.properties, S, S');
    RangeIsInMore(b.items, v.items, S, S');
    RangeIsInMore(b.length, v.length, S, S');
    RangeIsInMore(b.value, v.value, S, S');
  }

  lemma JSONRefsAreInMore(r: JSONRefs, v: JSONValues, S: set<object>, S': set<object>)
    requires JSONRefsAre(r, v, S) && S <= S'
    ensures JSONRefsAre(r, v, S')
  {
  }

  lemma OtherRefsAreInMore(r: OtherRefs, v: OtherValues, S: set<object>, S': set<object>)
    requires OtherRefsAre(r, v, S) && S <= S'
    ensures OtherRefsAre(r, v, S')
  {
  }

  lemma {:induction false} RefsAreInMore(r: References, v: SchemaValue, S: set<object>, S': set<object>)
    requires RefsAre(r, v, S) && S <= S'
    ensures RefsAre(r, v, S')
    decreases v, 1
  {
    BoundsAreInMore(r.bounds, v.bounds, S, S');
    JSONRefsAreInMore(r.json, v.json, S, S');
    OtherRefsAreInMore(r.other, v.other, S, S');
    ChildrenAreInMore(r.children, v, S, S');
  }

  lemma {:induction false} IsInMore(c: Schema, v: SchemaValue, S: set<object>, S': set<object>)
    requires c.Is(v, S) && S <= S'
    ensures c.Is(v, S')
    decreases v, 2
  {
    Unfold(c, v, S);
    RefsAreInMore(c.refs, v, S, S');
    Fold(c, v, S');
  }

  lemma {:induction false} ChildrenAreInMore(k: Children, v: SchemaValue, S: set<object>, S': set<object>)
    requires ChildrenAre(k, v, S) && S <= S'
    ensures ChildrenAre(k, v, S')
    decreases v, 0
  {
    MapIsInMore(k.properties, v.properties, S, S');
    PointerIsInMore(k.additionalProperties, v.additionalProperties, S, S');
    PointerIsInMore(k.items, v.items, S, S');
    PointerIsInMore(k.not, v.not, S, S');
    SliceIsInMore(k.allOf, v.allOf, S, S');
    SliceIsInMore(k.oneOf, v.oneOf, S, S');
    SliceIsInMore(k.anyOf, v.anyOf, S, S');
  }

  lemma {:induction false} PointerIsInMore(p: Schema?, v: Option<SchemaValue>, S: set<object>, S': set<object>)
    requires PointerIs(p, v, S) && S <= S'
    ensures PointerIs(p, v, S')
    decreases v, 1
  {
    if p == null {
    } else {
      IsInMore(p, v.value, S, S');
    }
  }

  lemma {:induction false} AllAreInMore(cs: seq<Schema>, vs: seq<SchemaValue>, S: set<object>, S': set<object>)
    requires AllAre(cs, vs, S) && S <= S'
    ensures AllAre(cs, vs, S')
    decreases vs, 1
  {
    forall i | 0 <= i < |cs| ensures cs[i].Is(vs[i], S') {
      IsInMore(cs[i], vs[i], S, S');
    }
  }

  lemma {:induction false} SliceIsInMore(a: array?<Schema>, v: SliceValue, S: set<object>, S': set<object>)
    requires SliceIs(a, v, S) && S <= S'
    ensures SliceIs(a, v, S')
    decreases v, 1
  {
    if a == null {
    } else {
      AllAreInMore(a[..], v.elements, S, S');
    }
  }

  lemma {:induction false} EntriesAreInMore(
    m: map<string, Schema>, v: map<string, SchemaValue>, S: set<object>, S': set<object>)
    requires EntriesAre(m, v, S) && S <= S'
    ensures EntriesAre(m, v, S')
    decreases Map(v), 1
  {
    forall k | k in v ensures m[k].Is(v[k], S') {
      IsInMore(m[k], v[k], S, S');
    }
  }

  lemma {:induction false} MapIsInMore(p: SchemaMap?, v: MapValue, S: set<object>, S': set<object>)
    requires MapIs(p, v, S) && S <= S'
    ensures MapIs(p, v, S')
    decreases v, 2
  {
    if p == null {
    } else {
      EntriesAreInMore(p.entries, v.entries, S, S');
    }
  }

  // ----- Copies of what holds no schemas; `R` are the new objects -----

  // A record of references is copied like the struct it is part of: it starts out as the same record, and every
  // reference in it that is not nil is replaced.

  method CopyInt(p: Int64) returns (q: Int64)
    ensures fresh(q) && q.value == p.value
  {
    q := new Int64(p.value);
  }

  method CopyRange(r: Range<Int64?>, ghost v: Range<Option<int>>, ghost S: set<object>)
    returns (q: Range<Int64?>, ghost R: set<object>)
    requires RangeIs(r, v, S)
    ensures fresh(R) && RangeIs(q, v, R)
  {
    assert At(0);
    q, R := r, {};
    if r.max != null {
      var max := CopyInt(r.max);
      q, R := q.(max := max), R + {max};
    }
    if r.min != null {
      var min := CopyInt(r.min);
      q, R := q.(min := min), R + {min};
    }
  }

  method CopyBounds(b: Bounds<Int64?>, ghost v: Bounds<Option<int>>, ghost S: set<object>)
    returns (c: Bounds<Int64?>, ghost R: set<object>)
    requires BoundsAre(b, v, S)
    ensures fresh(R) && BoundsAre(c, v, R)
  {
    ghost var R1, R2, R3, R4;
    var properties, items, length, value;
    properties, R1 := CopyRange(b.properties, v.properties, S);
    items, R2 := CopyRange(b.items, v.items, S);
    length, R3 := CopyRange(b.length, v.length, S);
    value, R4 := CopyRange(b.value, v.value, S);
    c, R := Bounds(properties, items, length, value), R1 + R2 + R3 + R4;
    RangeIsInMore(properties, v.properties, R1, R);
    RangeIsInMore(items, v.items, R2, R);
    RangeIsInMore(length, v.length, R3, R);
    RangeIsInMore(value, v.value, R4, R);
  }

  method CopyArray<T>(a: array<T>) returns (b: array<T>)
    ensures fresh(b) && b[..] == a[..]
  {
    b := new T[a.Length](i requires 0 <= i < a.Length reads a => a[i]);
    assert b[..] == a[..];
  }

  method CopyJSON(j: JSON, ghost v: JSONValue, ghost S: set<object>) returns (k: JSON, ghost R: set<object>)
    requires JSONIs(j, v, S)
    ensures fresh(R) && JSONIs(k, v, R)
  {
    k := new JSON(j.raw);
    R := {k};
    if j.raw != null {
      k.raw := CopyArray(j.raw);
      R := R + {k.raw};
    }
  }

  method CopyJSONs(a: array<JSON>, ghost v: seq<JSONValue>, ghost S: set<object>)
    returns (b: array<JSON>, ghost R: set<object>)
    requires JSONsAre(a, Some(v), S)
    ensures fresh(R) && JSONsAre(b, Some(v), R)
  {
    var blank := new JSON(null);
    b := new JSON[a.Length](_ => blank);
    R := {};
    var i := 0;
    while i < a.Length
      invariant 0 <= i <= a.Length && fresh(R) && b !in R
      invariant JSONsAre(a, Some(v), S)
      invariant forall j :: 0 <= j < i ==> JSONIs(b[j], v[j], R)
      modifies b
    {
      ghost var made;
      b[i], made := CopyJSON(a[i], v[i], S);
      R := R + made;
      i := i + 1;
    }
    R := R + {b};
  }

  method CopyStringMap(m: StringMap) returns (n: StringMap)
    ensures fresh(n) && n.entries == m.entries
  {
    n := new StringMap(map[]);
    var left := m.entries.Keys;
    while left != {}
      invariant left <= m.entries.Keys
      invariant n.entries == m.entries - left
      modifies n
      decreases left
    {
      var key :| key in left;
      n.entries := n.entries[key := m.entries[key]];
      left := left - {key};
    }
    assert m.entries - left == m.entries;
  }

  method CopyMetadata(m: Metadata, ghost v: MetadataValue, ghost S: set<object>)
    returns (n: Metadata, ghost R: set<object>)
    requires MetadataIs(m, Some(v), S)
    ensures fresh(R) && MetadataIs(n, Some(v), R)
  {
    n := new Metadata(m.labels, m.annotations);
    R := {n};
    if m.labels != null {
      n.labels := CopyStringMap(m.labels);
      R := R + {n.labels};
    }
    if m.annotations != null {
      n.annotations := CopyStringMap(m.annotations);
      R := R + {n.annotations};
    }
  }

  method CopyJSONRefs(r: JSONRefs, ghost v: JSONValues, ghost S: set<object>)
    returns (q: JSONRefs, ghost R: set<object>)
    requires JSONRefsAre(r, v, S)
    ensures fresh(R) && JSONRefsAre(q, v, R)
  {
    assert At(0);
    q, R := r, {};
    ghost var made;
    if r.example != null {
      var example;
      example, made := CopyJSON(r.example, v.example.value, S);
      q, R := q.(example := example), R + made;
    }
    if r.enum != null {
      var enum;
      enum, made := CopyJSONs(r.enum, v.enum.value, S);
      q, R := q.(enum := enum), R + made;
    }
    if r.default != null {
      var default;
      default, made := CopyJSON(r.default, v.default.value, S);
      q, R := q.(default := default), R + made;
    }
  }

  method CopyOtherRefs(r: OtherRefs, ghost v: OtherValues, ghost S: set<object>)
    returns (q: OtherRefs, ghost R: set<object>)
    requires OtherRefsAre(r, v, S)
    ensures fresh(R) && OtherRefsAre(q, v, R)
  {
    assert At(0);
    q, R := r, {};
    if r.required != null {
      var required := CopyArray(r.required);
      q, R := q.(required := required), R + {required};
    }
    if r.xValidations != null {
      var rules := CopyArray(r.xValidations);
      q, R := q.(xValidations := rules), R + {rules};
    }
    if r.xMetadata != null {
      var metadata;
      ghost var made;
      metadata, made := CopyMetadata(r.xMetadata, v.xMetadata.value, S);
      q, R := q.(xMetadata := metadata), R + made;
    }
  }

  // ----- The copy -----

  /** A new schema, and the original copied into it. */
  method CopySchema(c: Schema, ghost v: SchemaValue, ghost S: set<object>) returns (d: Schema, ghost R: set<object>)
    requires c.Is(v, S)
    ensures fresh(R) && d.Is(v, R)
    decreases v, 4
  {
    d := new Schema();
    R := DeepCopyInto(c, d, v, S);
    R := R + {d};
  }

  method CopySlice(a: array<Schema>, ghost v: SliceValue, ghost S: set<object>)
    returns (b: array<Schema>, ghost R: set<object>)
    requires SliceIs(a, v, S)
    ensures fresh(R) && SliceIs(b, v, R)
    decreases v, 0
  {
    ghost var vs := v.elements;
    var blank := new Schema();
    b := new Schema[a.Length](_ => blank);
    R := {};
    ghost var done: seq<Schema> := [];
    var i := 0;
    while i < a.Length
      invariant 0 <= i <= a.Length && fresh(R) && b !in R
      invariant AllAre(a[..], vs, S)
      invariant b[..i] == done && AllAre(done, vs[..i], R)
      modifies b
    {
      ghost var source, copied := SliceClaim(a[..], vs, S), SliceClaim(done, vs[..i], R);
      label before:
      ghost var more := CopyElement(a[i], b, i, vs[i], S, R);
      assert b[..i] == b[..][..i] == done && b[..i+1] == b[..i] + [b[i]];
      AllStillAre@before(source);
      AllStillAre@before(copied);
      AllAreInMore(done, vs[..i], R, more);
      OneMoreIs(done, vs, i, b[i], more);
      R, done := more, done + [b[i]];
      i := i + 1;
    }
    assert b[..] == done && vs == vs[..i];
    AllAreInMore(done, vs, R, R + {b});
    R := R + {b};
  }

  /** One round of the loop: a copy of `c` goes to `b[i]`. */
  method CopyElement(
    c: Schema, b: array<Schema>, i: nat, ghost v: SchemaValue, ghost S: set<object>, ghost R: set<object>)
    returns (ghost more: set<object>)
    requires c.Is(v, S) && b !in S && b !in R && i < b.Length
    modifies b
    ensures R <= more && fresh(more - R) && b !in more && b[i].Is(v, more)
    ensures b[..] == old(b[..])[i := b[i]]
    decreases v, 5
  {
    var d;
    ghost var made;
    d, made := CopySchema(c, v, S);
    ghost var copied := SliceClaim([d], [v], made);
    label before:
    b[i] := d;
    AllStillAre@before(copied);
    assert [d][0].Is([v][0], made);
    IsInMore(d, v, made, R + made);
    more := R + made;
  }

  method CopyMap(p: SchemaMap, ghost v: MapValue, ghost S: set<object>) returns (q: SchemaMap, ghost R: set<object>)
    requires MapIs(p, v, S)
    ensures fresh(R) && MapIs(q, v, R)
    decreases v, 0
  {
    ghost var vs := v.entries;
    q := new SchemaMap(map[]);
    R := {};
    ghost var done: map<string, Schema> := map[];
    var left := p.entries.Keys;
    while left != {}
      invariant left <= p.entries.Keys && fresh(R) && q !in R
      invariant EntriesAre(p.entries, vs, S)
      invariant q.entries == done && EntriesAre(done, vs - left, R)
      modifies q
      decreases left
    {
      ghost var source, copied := MapClaim(p.entries, vs, S), MapClaim(done, vs - left, R);
      label before:
      var key :| key in left;
      ghost var more := CopyEntry(p.entries[key], q, key, vs[key], S, R);
      EntriesStillAre@before(source);
      EntriesStillAre@before(copied);
      EntriesAreInMore(done, vs - left, R, more);
      OneMoreEntry(done, vs, left, key, q.entries[key], more);
      R, done, left := more, q.entries, left - {key};
    }
    assert vs - left == vs;
    EntriesAreInMore(done, vs, R, R + {q});
    R := R + {q};
  }

  /** One round of the loop: a copy of `c` goes to `q` under `key`. */
  method CopyEntry(
    c: Schema, q: SchemaMap, key: string, ghost v: SchemaValue, ghost S: set<object>, ghost R: set<object>)
    returns (ghost more: set<object>)
    requires c.Is(v, S) && q !in S && q !in R
    modifies q
    ensures R <= more && fresh(more - R) && q !in more
    ensures key in q.entries && q.entries[key].Is(v, more) && q.entries == old(q.entries)[key := q.entries[key]]
    decreases v, 6
  {
    var d;
    ghost var made;
    d, made := DeepCopy(c, v, S);
    ghost var copied := SliceClaim([d], [v], made);
    label before:
    q.entries := q.entries[key := d];
    AllStillAre@before(copied);
    assert [d][0].Is([v][0], made);
    IsInMore(d, v, made, R + made);
    more := R + made;
  }

  // What has a value keeps it as long as the objects it is made of do not change.

  datatype Claim =
    | SliceClaim(cs: seq<Schema>, vs: seq<SchemaValue>, S: set<object>)
    | MapClaim(m: map<string, Schema>, v: map<string, SchemaValue>, S: set<object>)

  twostate lemma AllStillAre(claim: Claim)
    requires claim.SliceClaim? && old(AllAre(claim.cs, claim.vs, claim.S)) && unchanged(claim.S)
    ensures AllAre(claim.cs, claim.vs, claim.S)
  {
  }

  twostate lemma EntriesStillAre(claim: Claim)
    requires claim.MapClaim? && old(EntriesAre(claim.m, claim.v, claim.S)) && unchanged(claim.S)
    ensures EntriesAre(claim.m, claim.v, claim.S)
  {
  }

  lemma OneMoreIs(cs: seq<Schema>, vs: seq<SchemaValue>, i: nat, c: Schema, S: set<object>)
    requires i < |vs| && AllAre(cs, vs[..i], S) && c.Is(vs[i], S)
    ensures AllAre(cs + [c], vs[..i+1], S)
  {
  }

  lemma OneMoreEntry(
    m: map<string, Schema>, v: map<string, SchemaValue>, left: set<string>, key: string, c: Schema, S: set<object>)
    requires key in left && key in v && EntriesAre(m, v - left, S) && c.Is(v[key], S)
    ensures EntriesAre(m[key := c], v - (left - {key}), S)
  {
  }

  method CopyPointers(k: Children, ghost v: SchemaValue, ghost S: set<object>)
    returns (l: Children, ghost R: set<object>)
    requires PointerIs(k.additionalProperties, v.additionalProperties, S)
    requires PointerIs(k.items, v.items, S) && PointerIs(k.not, v.not, S)
    ensures l == k.(additionalProperties := l.additionalProperties, items := l.items, not := l.not)
    ensures fresh(R) && PointerIs(l.additionalProperties, v.additionalProperties, R)
    ensures PointerIs(l.items, v.items, R) && PointerIs(l.not, v.not, R)
    decreases v, 0
  {
    l, R := k, {};
    ghost var R1, R2, R3 := {}, {}, {};
    if k.additionalProperties != null {
      var d;
      d, R1 := CopySchema(k.additionalProperties, v.additionalProperties.value, S);
      l := l.(additionalProperties := d);
    }
    if k.items != null {
      var d;
      d, R2 := CopySchema(k.items, v.items.value, S);
      l := l.(items := d);
    }
    if k.not != null {
      var d;
      d, R3 := CopySchema(k.not, v.not.value, S);
      l := l.(not := d);
    }
    R := R1 + R2 + R3;
    PointerIsInMore(l.additionalProperties, v.additionalProperties, R1, R);
    PointerIsInMore(l.items, v.items, R2, R);
    PointerIsInMore(l.not, v.not, R3, R);
  }

  method CopySlices(k: Children, ghost v: SchemaValue, ghost S: set<object>) returns (l: Children, ghost R: set<object>)
    requires SliceIs(k.allOf, v.allOf, S) && SliceIs(k.oneOf, v.oneOf, S) && SliceIs(k.anyOf, v.anyOf, S)
    ensures l == k.(allOf := l.allOf, oneOf := l.oneOf, anyOf := l.anyOf)
    ensures fresh(R) && SliceIs(l.allOf, v.allOf, R) && SliceIs(l.oneOf, v.oneOf, R) && SliceIs(l.anyOf, v.anyOf, R)
    decreases v, 0
  {
    l, R := k, {};
    ghost var R1, R2, R3 := {}, {}, {};
    if k.allOf != null {
      var a;
      a, R1 := CopySlice(k.allOf, v.allOf, S);
      l := l.(allOf := a);
    }
    if k.oneOf != null {
      var a;
      a, R2 := CopySlice(k.oneOf, v.oneOf, S);
      l := l.(oneOf := a);
    }
    if k.anyOf != null {
      var a;
      a, R3 := CopySlice(k.anyOf, v.anyOf, S);
      l := l.(anyOf := a);
    }
    R := R1 + R2 + R3;
    SliceIsInMore(l.allOf, v.allOf, R1, R);
    SliceIsInMore(l.oneOf, v.oneOf, R2, R);
    SliceIsInMore(l.anyOf, v.anyOf, R3, R);
  }

  method CopyChildren(k: Children, ghost v: SchemaValue, ghost S: set<object>)
    returns (l: Children, ghost R: set<object>)
    requires ChildrenAre(k, v, S)
    ensures fresh(R) && ChildrenAre(l, v, R)
    decreases v, 1
  {
    ghost var R1, R2, R3 := {}, {}, {};
    l := k;
    if k.properties != null {
      var properties;
      properties, R1 := CopyMap(k.properties, v.properties, S);
      l := l.(properties := properties);
    }
    l, R2 := CopyPointers(l, v, S);
    l, R3 := CopySlices(l, v, S);
    R := R1 + R2 + R3;
    MapIsInMore(l.properties, v.properties, R1, R);
    PointerIsInMore(l.additionalProperties, v.additionalProperties, R2, R);
    PointerIsInMore(l.items, v.items, R2, R);
    PointerIsInMore(l.not, v.not, R2, R);
    SliceIsInMore(l.allOf, v.allOf, R3, R);
    SliceIsInMore(l.oneOf, v.oneOf, R3, R);
    SliceIsInMore(l.anyOf, v.anyOf, R3, R);
  }

  method CopyRefs(r: References, ghost v: SchemaValue, ghost S: set<object>)
    returns (q: References, ghost R: set<object>)
    requires RefsAre(r, v, S)
    ensures fresh(R) && RefsAre(q, v, R)
    decreases v, 2
  {
    ghost var R1, R2, R3, R4;
    var bounds, json, other, children;
    bounds, R1 := CopyBounds(r.bounds, v.bounds, S);
    json, R2 := CopyJSONRefs(r.json, v.json, S);
    other, R3 := CopyOtherRefs(r.other, v.other, S);
    children, R4 := CopyChildren(r.children, v, S);
    q, R := References(bounds, json, other, children), R1 + R2 + R3 + R4;
    BoundsAreInMore(bounds, v.bounds, R1, R);
    JSONRefsAreInMore(json, v.json, R2, R);
    OtherRefsAreInMore(other, v.other, R3, R);
    ChildrenAreInMore(children, v, R4, R);
  }

  /** `DeepCopyInto`: whatever `out` was, it becomes a schema of the same value, made of itself and new objects.
      First every reference is shared, then every reference that is not nil is replaced. */
  method DeepCopyInto(c: Schema, out: Schema, ghost v: SchemaValue, ghost S: set<object>) returns (ghost R: set<object>)
    requires c.Is(v, S) && out !in S
    modifies out
    ensures fresh(R) && out.Is(v, R + {out})
    decreases v, 3
  {
    Unfold(c, v, S);
    out.scalars, out.refs := c.scalars, c.refs;
    out.refs, R := CopyRefs(out.refs, v, S);
    RefsAreInMore(out.refs, v, R, R + {out});
    Fold(out, v, R + {out});
  }

  /** `DeepCopy`: nil for nil, else a schema of the same value, made of new objects only. */
  method DeepCopy(c: Schema?, ghost v: SchemaValue, ghost S: set<object>) returns (out: Schema?, ghost R: set<object>)
    requires c != null ==> c.Is(v, S)
    ensures fresh(R) && (out == null <==> c == null) && (out != null ==> out.Is(v, R))
    decreases v, 4
  {
    if c == null {
      return null, {};
    }
    out := new Schema();
    R := DeepCopyInto(c, out, v, S);
    R := R + {out};
  }

  // ----- What the copy is good for -----

  /** An arbitrary change of the objects of `S`: a caller knows nothing about what is left of them. */
  method Mutate(ghost S: set<object>)
    modifies S
  {
  }

  /** Whatever is done to the original afterwards, the copy keeps the value. */
  method CopySurvivesMutation(c: Schema, ghost v: SchemaValue, ghost S: set<object>)
    returns (out: Schema, ghost R: set<object>)
    requires c.Is(v, S)
    modifies S
    ensures fresh(R) && out.Is(v, R)
  {
    out, R := DeepCopy(c, v, S);
    Mutate(S);
  }

  /** Whatever is done to the copy afterwards, the original keeps the value. */
  method OriginalSurvivesMutation(c: Schema, ghost v: SchemaValue, ghost S: set<object>)
    returns (out: Schema, ghost R: set<object>)
    requires c.Is(v, S)
    ensures fresh(R) && out in R && c.Is(v, S)
  {
    out, R := DeepCopy(c, v, S);
    Unfold(out, v, R);
    Mutate(R);
  }

  // ----- A schema has at most one value -----

  lemma LeavesAreUnique(r: References, v: SchemaValue, w: SchemaValue, S: set<object>, T: set<object>)
    requires BoundsAre(r.bounds, v.bounds, S) && BoundsAre(r.bounds, w.bounds, T)
    requires JSONRefsAre(r.json, v.json, S) && JSONRefsAre(r.json, w.json, T)
    requires OtherRefsAre(r.other, v.other, S) && OtherRefsAre(r.other, w.other, T)
    ensures v.bounds == w.bounds && v.json == w.json && v.other == w.other
  {
    assert At(0);
    if r.json.enum != null {
      assert v.json.enum.value == w.json.enum.value;
    }
  }

  lemma {:induction false} ValueIsUnique(c: Schema, v: SchemaValue, w: SchemaValue, S: set<object>, T: set<object>)
    requires c.Is(v, S) && c.Is(w, T)
    ensures v == w
    decreases v, 1
  {
    Unfold(c, v, S);
    Unfold(c, w, T);
    LeavesAreUnique(c.refs, v, w, S, T);
    var k := c.refs.children;
    MapValueIsUnique(k.properties, v.properties, w.properties, S, T);
    PointerValueIsUnique(k.additionalProperties, v.additionalProperties, w.additionalProperties, S, T);
    PointerValueIsUnique(k.items, v.items, w.items, S, T);
    PointerValueIsUnique(k.not, v.not, w.not, S, T);
    SliceValueIsUnique(k.allOf, v.allOf, w.allOf, S, T);
    SliceValueIsUnique(k.oneOf, v.oneOf, w.oneOf, S, T);
    SliceValueIsUnique(k.anyOf, v.anyOf, w.anyOf, S, T);
  }

  lemma {:induction false} PointerValueIsUnique(
    p: Schema?, v: Option<SchemaValue>, w: Option<SchemaValue>, S: set<object>, T: set<object>)
    requires PointerIs(p, v, S) && PointerIs(p, w, T)
    ensures v == w
    decreases v, 0
  {
    if p == null {
    } else {
      ValueIsUnique(p, v.value, w.value, S, T);
    }
  }

  lemma {:induction false} SliceValueIsUnique(
    a: array?<Schema>, v: SliceValue, w: SliceValue, S: set<object>, T: set<object>)
    requires SliceIs(a, v, S) && SliceIs(a, w, T)
    ensures v == w
    decreases v, 0
  {
    if a == null {
    } else {
      forall i | 0 <= i < a.Length ensures v.elements[i] == w.elements[i] {
        assert a[..][i].Is(v.elements[i], S) && a[..][i].Is(w.elements[i], T);
        ValueIsUnique(a[i], v.elements[i], w.elements[i], S, T);
      }
    }
  }

  lemma {:induction false} MapValueIsUnique(p: SchemaMap?, v: MapValue, w: MapValue, S: set<object>, T: set<object>)
    requires MapIs(p, v, S) && MapIs(p, w, T)
    ensures v == w
    decreases v, 0
  {
    if p == null {
    } else {
      forall k | k in v.entries ensures v.entries[k] == w.entries[k] {
        ValueIsUnique(p.entries[k], v.entries[k], w.entries[k], S, T);
      }
      assert v.entries == w.entries;
    }
  }

  // ----- Every acyclic schema has a value -----

  ghost predicate JSONIn(j: JSON?, S: set<object>) reads S {
    j != null ==> j in S && (j.raw != null ==> j.raw in S)
  }

  ghost predicate LeavesIn(r: References, S: set<object>) reads S {
    && (forall p <- [r.bounds.properties.max, r.bounds.properties.min, r.bounds.items.max, r.bounds.items.min,
                     r.bounds.length.max, r.bounds.length.min, r.bounds.value.max, r.bounds.value.min] ::
          p != null ==> p in S)
    && JSONIn(r.json.example, S) && JSONIn(r.json.default, S)
    && (r.json.enum != null ==>
          r.json.enum in S && forall i :: 0 <= i < r.json.enum.Length ==> JSONIn(r.json.enum[i], S))
    && (r.other.required != null ==> r.other.required in S)
    && (r.other.xValidations != null ==> r.other.xValidations in S)
    && (r.other.xMetadata != null ==>
          && r.other.xMetadata in S
          && (r.other.xMetadata.labels != null ==> r.other.xMetadata.labels in S)
          && (r.other.xMetadata.annotations != null ==> r.other.xMetadata.annotations in S))
  }

  /** A schema of `S` that is below `c`. */
  ghost predicate Below(d: Schema?, c: Schema, S: set<object>, rank: map<Schema, nat>) {
    d != null ==> d in S && d in rank && c in rank && rank[d] < rank[c]
  }

  ghost predicate ChildrenBelow(c: Schema, S: set<object>, rank: map<Schema, nat>)
    requires c in S
    reads S
  {
    var k := c.refs.children;
    && Below(k.additionalProperties, c, S, rank) && Below(k.items, c, S, rank) && Below(k.not, c, S, rank)
    && (k.properties != null ==>
          k.properties in S && forall n <- k.properties.entries :: Below(k.properties.entries[n], c, S, rank))
    && (k.allOf != null ==> k.allOf in S && forall i :: 0 <= i < k.allOf.Length ==> Below(k.allOf[i], c, S, rank))
    && (k.oneOf != null ==> k.oneOf in S && forall i :: 0 <= i < k.oneOf.Length ==> Below(k.oneOf[i], c, S, rank))
    && (k.anyOf != null ==> k.anyOf in S && forall i :: 0 <= i < k.anyOf.Length ==> Below(k.anyOf[i], c, S, rank))
  }

  /** Acyclic, as a ranking: `S` is closed under references, and every child has a smaller rank. */
  ghost predicate Acyclic(S: set<object>, rank: map<Schema, nat>) reads S {
    forall c <- rank :: c in S && LeavesIn(c.refs, S) && ChildrenBelow(c, S, rank)
  }

  lemma BoundsHaveAValue(b: Bounds<Int64?>, S: set<object>) returns (v: Bounds<Option<int>>)
    requires forall p <- [b.properties.max, b.properties.min, b.items.max, b.items.min,
                          b.length.max, b.length.min, b.value.max, b.value.min] :: p != null ==> p in S
    ensures BoundsAre(b, v, S)
  {
    var all := [b.properties.max, b.properties.min, b.items.max, b.items.min,
                b.length.max, b.length.min, b.value.max, b.value.min];
    assert forall i :: 0 <= i < |all| ==> all[i] in all;
    assert all[0] in all && all[1] in all && all[2] in all && all[3] in all;
    assert all[4] in all && all[5] in all && all[6] in all && all[7] in all;
    var value := (p: Int64?) reads p => if p == null then None else Some(p.value);
    v := Bounds(Range(value(b.properties.max), value(b.properties.min)), Range(value(b.items.max), value(b.items.min)),
                Range(value(b.length.max), value(b.length.min)), Range(value(b.value.max), value(b.value.min)));
  }

  lemma JSONHasAValue(j: JSON?, S: set<object>) returns (v: Option<JSONValue>)
    requires JSONIn(j, S)
    ensures JSONPointerIs(j, v, S)
  {
    v := if j == null then None else Some(if j.raw == null then None else Some(j.raw[..]));
  }

  lemma {:induction false} JSONsHaveValues(js: seq<JSON>, S: set<object>) returns (vs: seq<JSONValue>)
    requires forall i :: 0 <= i < |js| ==> JSONIn(js[i], S)
    ensures |vs| == |js| && forall i :: 0 <= i < |js| ==> JSONIs(js[i], vs[i], S)
    decreases |js|
  {
    vs := [];
    if js == [] {
    } else {
      var n := |js| - 1;
      vs := JSONsHaveValues(js[..n], S);
      var last := JSONHasAValue(js[n], S);
      vs := vs + [last.value];
    }
  }

  lemma JSONRefsHaveAValue(r: References, S: set<object>) returns (v: JSONValues)
    requires LeavesIn(r, S)
    ensures JSONRefsAre(r.json, v, S)
  {
    var example := JSONHasAValue(r.json.example, S);
    var default := JSONHasAValue(r.json.default, S);
    var enum := None;
    if r.json.enum != null {
      var vs := JSONsHaveValues(r.json.enum[..], S);
      enum := Some(vs);
    }
    v := JSONValues(example, default, enum);
  }

  lemma OtherRefsHaveAValue(r: References, S: set<object>) returns (v: OtherValues)
    requires LeavesIn(r, S)
    ensures OtherRefsAre(r.other, v, S)
  {
    var o := r.other;
    var entries := (m: StringMap?) reads m => if m == null then None else Some(m.entries);
    v := OtherValues(
      if o.required == null then None else Some(o.required[..]),
      if o.xValidations == null then None else Some(o.xValidations[..]),
      if o.xMetadata == null then None
      else Some(MetadataValue(entries(o.xMetadata.labels), entries(o.xMetadata.annotations))));
  }

  /** Every acyclic schema has a value, so a copy can be made of it. */
  lemma {:induction false} AcyclicHasAValue(c: Schema, S: set<object>, rank: map<Schema, nat>) returns (v: SchemaValue)
    requires Acyclic(S, rank) && c in rank
    ensures c.Is(v, S)
    decreases rank[c], 1
  {
    var k := c.refs.children;
    var bounds := BoundsHaveAValue(c.refs.bounds, S);
    var json := JSONRefsHaveAValue(c.refs, S);
    var other := OtherRefsHaveAValue(c.refs, S);
    var properties := MapHasAValue(k.properties, c, S, rank);
    var additionalProperties := PointerHasAValue(k.additionalProperties, c, S, rank);
    var items := PointerHasAValue(k.items, c, S, rank);
    var not_ := PointerHasAValue(k.not, c, S, rank);
    var allOf := SliceHasAValue(k.allOf, c, S, rank);
    var oneOf := SliceHasAValue(k.oneOf, c, S, rank);
    var anyOf := SliceHasAValue(k.anyOf, c, S, rank);
    v := SchemaValue(
      c.scalars, bounds, json, other, properties, additionalProperties, items, not_, allOf, oneOf, anyOf);
    Fold(c, v, S);
  }

  lemma {:induction false} PointerHasAValue(p: Schema?, c: Schema, S: set<object>, rank: map<Schema, nat>)
    returns (v: Option<SchemaValue>)
    requires Acyclic(S, rank) && c in rank && Below(p, c, S, rank)
    ensures PointerIs(p, v, S)
    decreases rank[c], 0
  {
    v := None;
    if p == null {
    } else {
      var w := AcyclicHasAValue(p, S, rank);
      v := Some(w);
    }
  }

  lemma {:induction false} AllHaveValues(ds: seq<Schema>, c: Schema, S: set<object>, rank: map<Schema, nat>)
    returns (vs: seq<SchemaValue>)
    requires Acyclic(S, rank) && c in rank && forall i :: 0 <= i < |ds| ==> Below(ds[i], c, S, rank)
    ensures AllAre(ds, vs, S)
    decreases rank[c], 0, |ds|
  {
    vs := [];
    if ds == [] {
    } else {
      var n := |ds| - 1;
      vs := AllHaveValues(ds[..n], c, S, rank);
      var last := AcyclicHasAValue(ds[n], S, rank);
      vs := vs + [last];
    }
  }

  lemma {:induction false} SliceHasAValue(a: array?<Schema>, c: Schema, S: set<object>, rank: map<Schema, nat>)
    returns (v: SliceValue)
    requires Acyclic(S, rank) && c in rank
    requires a != null ==> a in S && forall i :: 0 <= i < a.Length ==> Below(a[i], c, S, rank)
    ensures SliceIs(a, v, S)
    decreases rank[c], 0
  {
    v := NilSlice;
    if a == null {
    } else {
      var vs := AllHaveValues(a[..], c, S, rank);
      v := Slice(vs);
    }
  }

  lemma {:induction false} MapHasAValue(p: SchemaMap?, c: Schema, S: set<object>, rank: map<Schema, nat>)
    returns (v: MapValue)
    requires Acyclic(S, rank) && c in rank
    requires p != null ==> p in S && forall n <- p.entries :: Below(p.entries[n], c, S, rank)
    ensures MapIs(p, v, S)
    decreases rank[c], 0
  {
    v := NilMap;
    if p == null {
    } else {
      var vs := EntriesHaveValues(p.entries, c, S, rank);
      v := Map(vs);
    }
  }

  lemma EntryIsAdded(m: map<string, Schema>, key: string, vs: map<string, SchemaValue>, v: SchemaValue, S: set<object>)
    requires key in m && EntriesAre(m - {key}, vs, S) && m[key].Is(v, S)
    ensures EntriesAre(m, vs[key := v], S)
  {
    forall k | k in vs[key := v] ensures m[k].Is(vs[key := v][k], S) {
      assert k == key || (k in vs && (m - {key})[k].Is(vs[k], S));
    }
  }

  lemma {:induction false} EntriesHaveValues(m: map<string, Schema>, c: Schema, S: set<object>, rank: map<Schema, nat>)
    returns (v: map<string, SchemaValue>)
    requires Acyclic(S, rank) && c in rank && forall n <- m :: Below(m[n], c, S, rank)
    ensures EntriesAre(m, v, S)
    decreases rank[c], 0, |m.Keys|
  {
    v := map[];
    if m.Keys == {} {
    } else {
      var key :| key in m.Keys;
      var rest := m - {key};
      assert rest.Keys == m.Keys - {key};
      v := EntriesHaveValues(rest, c, S, rank);
      var last := AcyclicHasAValue(m[key], S, rank);
      EntryIsAdded(m, key, v, last, S);
      v := v[key := last];
    }
  }
}
