// Tenant validation, and the JSON Schema it is rendered to.
module TenantSchema {
  import opened Wrappers

  // Pattern text and the strings it matches, as one engine decides for validation and rendering alike.
  type Engine = (string, string) -> bool

  // ----- JSON Schema, draft 2020-12 -----

  datatype Json = Str(s: string) | Obj(fields: map<string, Json>) | OtherJson

  datatype JsonType = AnyType | StringType | ObjectType

  // The keywords the rendering uses; an absent keyword is empty.
  datatype Schema = Schema(
    ty: JsonType,
    values: seq<string>,
    pattern: string,
    properties: map<string, Schema>,
    required: seq<string>,
    additional: seq<Schema>,
    oneOf: seq<Schema>,
    negated: seq<Schema>)

  const EmptySchema := Schema(AnyType, [], "", map[], [], [], [], [])

  predicate HasType(ty: JsonType, j: Json) {
    match ty
    case AnyType => true
    case StringType => j.Str?
    case ObjectType => j.Obj?
  }

  // Sections 6.1.2 and 6.3.3 of JSON Schema Validation.
  predicate MeetsValueKeywords(s: Schema, j: Json, matches: Engine) {
    && HasType(s.ty, j)
    && (s.values != [] ==> j.Str? && j.s in s.values)
    && (s.pattern != "" && j.Str? ==> matches(s.pattern, j.s))
  }

  // Section 6.5.3 of JSON Schema Validation: every required name is a property of the object.
  predicate MeetsRequired(s: Schema, j: Json) {
    j.Obj? ==> forall k :: k in s.required ==> k in j.fields
  }

  // Core sections 10.3.2.1 and 10.3.2.3 for the members of an object, 10.2.1.3 for exactly one of
  // several subschemas, 10.2.1.4 for negation.
  ghost predicate Satisfies(s: Schema, j: Json, matches: Engine)
    decreases s
  {
    && MeetsValueKeywords(s, j, matches)
    && MeetsRequired(s, j)
    && (j.Obj? ==> forall k :: k in j.fields && k in s.properties ==> Satisfies(s.properties[k], j.fields[k], matches))
    && (j.Obj? ==> forall k, a :: k in j.fields && k !in s.properties && a in s.additional ==> Satisfies(a, j.fields[k], matches))
    && (s.oneOf != [] ==>
          exists i :: && 0 <= i < |s.oneOf| && Satisfies(s.oneOf[i], j, matches)
                      && forall m :: 0 <= m < |s.oneOf| && m != i ==> !Satisfies(s.oneOf[m], j, matches))
    && (forall n :: n in s.negated ==> !Satisfies(n, j, matches))
  }

  // ----- the configured schema -----

  // An empty pattern or value list is no constraint.
  datatype TenantKey = TenantKey(pattern: string, values: seq<string>, required: bool)

  datatype Tenants = Tenants(keys: map<string, TenantKey>, oneOf: seq<seq<string>>)

  predicate AllPresent(names: seq<string>, tuple: map<string, string>) {
    forall k :: k in names ==> k in tuple
  }

  predicate ValueAllowed(key: TenantKey, v: string, matches: Engine) {
    (key.values != [] ==> v in key.values) && (key.pattern != "" ==> matches(key.pattern, v))
  }

  function Matched(sets: seq<seq<string>>, tuple: map<string, string>): nat {
    if sets == [] then 0
    else Matched(sets[..|sets| - 1], tuple) + if AllPresent(sets[|sets| - 1], tuple) then 1 else 0
  }

  // ----- rendering -----

  function KeySchema(key: TenantKey): Schema {
    EmptySchema.(ty := StringType, pattern := key.pattern, values := key.values)
  }

  // Matches nothing: the negation of the schema that matches everything.
  const FalseSchema := EmptySchema.(negated := [EmptySchema])

  function SetSchema(names: seq<string>): Schema { EmptySchema.(required := names) }

  ghost predicate SameNames(a: seq<string>, b: seq<string>) { forall k :: k in a <==> k in b }

  // What the rendering must be, up to the order of the names it lists.
  ghost predicate IsRendering(t: Tenants, out: Schema) {
    && out.ty == ObjectType && out.values == [] && out.pattern == "" && out.negated == []
    && out.additional == [FalseSchema]
    && (forall k :: k in out.properties <==> k in t.keys)
    && (forall k :: k in t.keys ==>
          out.properties[k] == Schema(StringType, t.keys[k].values, t.keys[k].pattern, map[], [], [], [], []))
    && (forall k :: k in out.required <==> k in t.keys && t.keys[k].required)
    && |out.oneOf| == |t.oneOf|
    && forall i :: 0 <= i < |t.oneOf| ==>
         SameNames(out.oneOf[i].required, t.oneOf[i])
         && out.oneOf[i] == Schema(AnyType, [], "", map[], out.oneOf[i].required, [], [], [])
  }

  method JSONSchema(t: Tenants) returns (out: Schema)
    ensures IsRendering(t, out)
  {
    var props: map<string, Schema> := map[];
    var required: seq<string> := [];
    var todo := t.keys.Keys;
    while todo != {}
      invariant todo <= t.keys.Keys
      invariant forall k :: k in props <==> k in t.keys && k !in todo
      invariant forall k :: k in props ==> props[k] == KeySchema(t.keys[k])
      invariant forall k :: k in required <==> k in t.keys && k !in todo && t.keys[k].required
    {
      var name :| name in todo;
      props := props[name := KeySchema(t.keys[name])];
      if t.keys[name].required {
        required := required + [name];
      }
      todo := todo - {name};
    }
    var oneOf: seq<Schema> := [];
    for i := 0 to |t.oneOf|
      invariant |oneOf| == i
      invariant forall m :: 0 <= m < i ==> oneOf[m] == SetSchema(t.oneOf[m])
    {
      oneOf := oneOf + [SetSchema(t.oneOf[i])];
    }
    out := EmptySchema.(ty := ObjectType, properties := props, required := required, additional := [FalseSchema], oneOf := oneOf);
  }

  // ----- validation -----

  datatype Code = UnknownKey | EnumMismatch | PatternMismatch | MissingRequired | NoMatch | MultipleMatch

  datatype Invalid = Invalid(code: Code, field: string)

  predicate NoUnknown(t: Tenants, tuple: map<string, string>) { forall k :: k in tuple ==> k in t.keys }

  predicate ValuesAllowed(t: Tenants, tuple: map<string, string>, matches: Engine) {
    forall k :: k in t.keys && k in tuple ==> ValueAllowed(t.keys[k], tuple[k], matches)
  }

  predicate RequiredPresent(t: Tenants, tuple: map<string, string>) {
    forall k :: k in t.keys && t.keys[k].required ==> k in tuple
  }

  predicate OneSet(t: Tenants, tuple: map<string, string>) { t.oneOf != [] ==> Matched(t.oneOf, tuple) == 1 }

  ghost predicate Accepts(t: Tenants, tuple: map<string, string>, matches: Engine) {
    NoUnknown(t, tuple) && ValuesAllowed(t, tuple, matches) && RequiredPresent(t, tuple) && OneSet(t, tuple)
  }

  // Why a tuple is refused: the first check that fails, at a name that fails it.
  ghost predicate Explains(t: Tenants, tuple: map<string, string>, matches: Engine, e: Invalid) {
    match e.code
    case UnknownKey => e.field in tuple && e.field !in t.keys
    case EnumMismatch =>
      NoUnknown(t, tuple) && e.field in t.keys && e.field in tuple
      && t.keys[e.field].values != [] && tuple[e.field] !in t.keys[e.field].values
    case PatternMismatch =>
      NoUnknown(t, tuple) && e.field in t.keys && e.field in tuple
      && t.keys[e.field].pattern != "" && !matches(t.keys[e.field].pattern, tuple[e.field])
    case MissingRequired =>
      NoUnknown(t, tuple) && ValuesAllowed(t, tuple, matches)
      && e.field in t.keys && t.keys[e.field].required && e.field !in tuple
    case NoMatch =>
      NoUnknown(t, tuple) && ValuesAllowed(t, tuple, matches) && RequiredPresent(t, tuple)
      && t.oneOf != [] && Matched(t.oneOf, tuple) == 0
    case MultipleMatch =>
      NoUnknown(t, tuple) && ValuesAllowed(t, tuple, matches) && RequiredPresent(t, tuple)
      && t.oneOf != [] && Matched(t.oneOf, tuple) > 1
  }

  method CheckKnown(t: Tenants, tuple: map<string, string>) returns (r: Option<Invalid>)
    ensures r.None? <==> NoUnknown(t, tuple)
    ensures r.Some? ==> r.value.code == UnknownKey && r.value.field in tuple && r.value.field !in t.keys
  {
    var todo := tuple.Keys;
    while todo != {}
      invariant todo <= tuple.Keys && forall k :: k in tuple && k !in todo ==> k in t.keys
    {
      var name :| name in todo;
      if name !in t.keys {
        return Some(Invalid(UnknownKey, name));
      }
      todo := todo - {name};
    }
    return None;
  }

  method CheckValues(t: Tenants, tuple: map<string, string>, matches: Engine) returns (r: Option<Invalid>)
    requires NoUnknown(t, tuple)
    ensures r.None? <==> ValuesAllowed(t, tuple, matches)
    ensures r.Some? ==> Explains(t, tuple, matches, r.value)
  {
    var todo := t.keys.Keys;
    while todo != {}
      invariant todo <= t.keys.Keys
      invariant forall k :: k in t.keys && k !in todo && k in tuple ==> ValueAllowed(t.keys[k], tuple[k], matches)
    {
      var name :| name in todo;
      todo := todo - {name};
      if name !in tuple {
        continue;
      }
      var key, v := t.keys[name], tuple[name];
      if |key.values| > 0 && v !in key.values {
        return Some(Invalid(EnumMismatch, name));
      }
      if key.pattern != "" && !matches(key.pattern, v) {
        return Some(Invalid(PatternMismatch, name));
      }
    }
    return None;
  }

  method CheckRequired(t: Tenants, tuple: map<string, string>) returns (r: Option<Invalid>)
    ensures r.None? <==> RequiredPresent(t, tuple)
    ensures r.Some? ==> r.value.code == MissingRequired && r.value.field in t.keys
                        && t.keys[r.value.field].required && r.value.field !in tuple
  {
    var todo := t.keys.Keys;
    while todo != {}
      invariant todo <= t.keys.Keys
      invariant forall k :: k in t.keys && k !in todo && t.keys[k].required ==> k in tuple
    {
      var name :| name in todo;
      todo := todo - {name};
      if !t.keys[name].required {
        continue;
      }
      if name !in tuple {
        return Some(Invalid(MissingRequired, name));
      }
    }
    return None;
  }

  method CountMatched(sets: seq<seq<string>>, tuple: map<string, string>) returns (matched: nat)
    ensures matched == Matched(sets, tuple)
  {
    matched := 0;
    for i := 0 to |sets|
      invariant matched == Matched(sets[..i], tuple)
    {
      assert sets[..i + 1][..i] == sets[..i];
      var present := true;
      for m := 0 to |sets[i]|
        invariant present && forall l :: 0 <= l < m ==> sets[i][l] in tuple
      {
        if sets[i][m] !in tuple {
          present := false;
          break;
        }
      }
      if present {
        matched := matched + 1;
      }
    }
    assert sets[..|sets|] == sets;
  }

  // Without a schema every tuple is accepted. Names are visited in no particular order.
  method Validate(schema: Option<Tenants>, tuple: map<string, string>, matches: Engine) returns (r: Option<Invalid>)
    ensures r.None? <==> schema.None? || Accepts(schema.value, tuple, matches)
    ensures r.Some? ==> Explains(schema.value, tuple, matches, r.value)
  {
    if schema.None? {
      return None;
    }
    var t := schema.value;
    r := CheckKnown(t, tuple);
    if r.Some? {
      return;
    }
    r := CheckValues(t, tuple, matches);
    if r.Some? {
      return;
    }
    r := CheckRequired(t, tuple);
    if r.Some? {
      return;
    }
    if |t.oneOf| > 0 {
      var matched := CountMatched(t.oneOf, tuple);
      if matched == 0 {
        return Some(Invalid(NoMatch, ""));
      }
      if matched > 1 {
        return Some(Invalid(MultipleMatch, ""));
      }
    }
    return None;
  }

  // ----- agreement -----

  function ToJson(tuple: map<string, string>): Json {
    Obj(map k | k in tuple :: Str(tuple[k]))
  }

  lemma EverythingMatchesEmpty(j: Json, matches: Engine)
    ensures Satisfies(EmptySchema, j, matches)
  {
  }

  lemma NothingMatchesFalse(j: Json, matches: Engine)
    ensures !Satisfies(FalseSchema, j, matches)
  {
    EverythingMatchesEmpty(j, matches);
    assert EmptySchema in FalseSchema.negated;
  }

  lemma KeySchemaMeans(key: TenantKey, v: string, matches: Engine)
    ensures Satisfies(KeySchema(key), Str(v), matches) <==> ValueAllowed(key, v, matches)
  {
  }

  lemma SetSchemaMeans(names: seq<string>, set_: seq<string>, tuple: map<string, string>, matches: Engine)
    requires SameNames(names, set_)
    ensures Satisfies(SetSchema(names), ToJson(tuple), matches) <==> AllPresent(set_, tuple)
  {
    var s, j := SetSchema(names), ToJson(tuple);
    assert Satisfies(s, j, matches) <==> MeetsRequired(s, j);
  }

  // Exactly one set is present, the one at i.
  ghost predicate OnlyAt(sets: seq<seq<string>>, i: int, tuple: map<string, string>) {
    && 0 <= i < |sets| && AllPresent(sets[i], tuple)
    && forall m :: 0 <= m < |sets| && m != i ==> !AllPresent(sets[m], tuple)
  }

  ghost predicate NonePresent(sets: seq<seq<string>>, tuple: map<string, string>) {
    forall i :: 0 <= i < |sets| ==> !AllPresent(sets[i], tuple)
  }

  lemma OneMoreSet(sets: seq<seq<string>>, tuple: map<string, string>, i: int)
    requires sets != []
    ensures var n := |sets| - 1;
            && (NonePresent(sets, tuple) <==> NonePresent(sets[..n], tuple) && !AllPresent(sets[n], tuple))
            && (OnlyAt(sets, i, tuple) <==> if AllPresent(sets[n], tuple) then i == n && NonePresent(sets[..n], tuple)
                                            else OnlyAt(sets[..n], i, tuple))
  {
    hide AllPresent;
    var n := |sets| - 1;
    assert forall m :: 0 <= m < n ==> sets[..n][m] == sets[m];
  }

  // Counting to one is the same as there being exactly one.
  lemma {:induction false} MatchedOnce(sets: seq<seq<string>>, tuple: map<string, string>)
    ensures Matched(sets, tuple) == 0 <==> NonePresent(sets, tuple)
    ensures Matched(sets, tuple) == 1 <==> exists i :: OnlyAt(sets, i, tuple)
  {
    if sets != [] {
      hide AllPresent, OnlyAt, NonePresent;
      var n := |sets| - 1;
      MatchedOnce(sets[..n], tuple);
      forall i
        ensures NonePresent(sets, tuple) <==> NonePresent(sets[..n], tuple) && !AllPresent(sets[n], tuple)
        ensures OnlyAt(sets, i, tuple) <==> if AllPresent(sets[n], tuple) then i == n && NonePresent(sets[..n], tuple)
                                            else OnlyAt(sets[..n], i, tuple)
      {
        OneMoreSet(sets, tuple, i);
      }
      OneMoreSet(sets, tuple, n);
    }
  }

  // The keywords about the members of an object, and about alternatives.
  ghost predicate MeetsMembers(s: Schema, j: Json, matches: Engine) {
    && (j.Obj? ==> forall k :: k in j.fields && k in s.properties ==> Satisfies(s.properties[k], j.fields[k], matches))
    && (j.Obj? ==> forall k, a :: k in j.fields && k !in s.properties && a in s.additional ==> Satisfies(a, j.fields[k], matches))
  }

  ghost predicate MeetsOneOf(s: Schema, j: Json, matches: Engine) {
    s.oneOf != [] ==>
      exists i :: && 0 <= i < |s.oneOf| && Satisfies(s.oneOf[i], j, matches)
                  && forall m :: 0 <= m < |s.oneOf| && m != i ==> !Satisfies(s.oneOf[m], j, matches)
  }

  lemma SatisfiesMeans(s: Schema, j: Json, matches: Engine)
    requires s.negated == []
    ensures Satisfies(s, j, matches) <==>
            && MeetsValueKeywords(s, j, matches) && MeetsRequired(s, j)
            && MeetsMembers(s, j, matches) && MeetsOneOf(s, j, matches)
  {
  }

  // No unknown name, and every known one allowed.
  lemma MembersMean(t: Tenants, out: Schema, tuple: map<string, string>, matches: Engine)
    requires IsRendering(t, out)
    ensures MeetsMembers(out, ToJson(tuple), matches) <==> NoUnknown(t, tuple) && ValuesAllowed(t, tuple, matches)
  {
    hide Satisfies, ValueAllowed;
    var fields := ToJson(tuple).fields;
    forall k | k in tuple && k in t.keys
      ensures Satisfies(out.properties[k], fields[k], matches) <==> ValueAllowed(t.keys[k], tuple[k], matches)
    {
      KeySchemaMeans(t.keys[k], tuple[k], matches);
    }
    forall k | k in tuple && k !in t.keys ensures !Satisfies(FalseSchema, fields[k], matches) {
      NothingMatchesFalse(fields[k], matches);
    }
    assert FalseSchema in out.additional;
  }

  lemma SetsMean(t: Tenants, out: Schema, tuple: map<string, string>, matches: Engine)
    requires IsRendering(t, out)
    ensures MeetsOneOf(out, ToJson(tuple), matches) <==> OneSet(t, tuple)
  {
    hide Satisfies, AllPresent, SameNames;
    forall i | 0 <= i < |t.oneOf|
      ensures Satisfies(out.oneOf[i], ToJson(tuple), matches) <==> AllPresent(t.oneOf[i], tuple)
    {
      SetSchemaMeans(out.oneOf[i].required, t.oneOf[i], tuple, matches);
    }
    MatchedOnce(t.oneOf, tuple);
    if t.oneOf != [] && MeetsOneOf(out, ToJson(tuple), matches) {
      var i :| && 0 <= i < |out.oneOf| && Satisfies(out.oneOf[i], ToJson(tuple), matches)
               && forall m :: 0 <= m < |out.oneOf| && m != i ==> !Satisfies(out.oneOf[m], ToJson(tuple), matches);
      assert OnlyAt(t.oneOf, i, tuple);
    }
  }

  // A tuple is accepted exactly when it satisfies the rendered schema.
  lemma ValidationAgreesWithSchema(t: Tenants, out: Schema, tuple: map<string, string>, matches: Engine)
    requires IsRendering(t, out)
    ensures Satisfies(out, ToJson(tuple), matches) <==> Accepts(t, tuple, matches)
  {
    MembersMean(t, out, tuple, matches);
    SetsMean(t, out, tuple, matches);
    SatisfiesMeans(out, ToJson(tuple), matches);
    hide Satisfies, MeetsMembers, MeetsOneOf, NoUnknown, ValuesAllowed, OneSet, ValueAllowed;
    assert MeetsRequired(out, ToJson(tuple)) <==> RequiredPresent(t, tuple);
  }
}
