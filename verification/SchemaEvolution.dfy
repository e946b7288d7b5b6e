/**
 Schema comparison and the upgrade check: the loops that list the changes between two
 registries, and what their "no breaking change" verdict means for data.
 */
module SchemaEvolution {
  import opened WorkItems

  datatype FieldType =
    | StringType | IntegerType | FloatType | BooleanType
    | DateTimeType | DateType | UuidType | JsonType

  datatype Field = Field(name: string, fieldType: FieldType, optional: bool, maxLength: Option<int>,
                         minLength: Option<int>)

  datatype Model = Model(name: string, fields: seq<Field>)

  datatype Registry = Registry(models: seq<Model>)

  datatype ChangeType =
    | FieldAdded | FieldRemoved | FieldTypeChanged | FieldOptionalChanged | FieldConstraintChanged
    | ModelAdded | ModelRemoved

  datatype Compatibility = Backward | Forward | Breaking

  datatype Change = Change(changeType: ChangeType, compatibility: Compatibility, model: string, field: Option<string>)

  // ---- Dictionaries by name ----

  function FieldsByName(fields: seq<Field>): map<string, Field> {
    if fields == [] then map[] else
      var last := fields[|fields| - 1];
      FieldsByName(fields[..|fields| - 1])[last.name := last]
  }

  function ModelsByName(models: seq<Model>): map<string, Model> {
    if models == [] then map[] else
      var last := models[|models| - 1];
      ModelsByName(models[..|models| - 1])[last.name := last]
  }

  // ---- Changes of one field ----

  /** A bound that is absent or zero counts as no bound. */
  predicate Bounded(b: Option<int>) {
    b.Some? && b.value != 0
  }

  predicate TightensLength(o: Field, n: Field) {
    || (Bounded(n.maxLength) && Bounded(o.maxLength) && n.maxLength.value < o.maxLength.value)
    || (Bounded(n.minLength) && Bounded(o.minLength) && n.minLength.value > o.minLength.value)
  }

  predicate BreaksField(o: Field, n: Field) {
    o.fieldType != n.fieldType || (o.optional && !n.optional) || TightensLength(o, n)
  }

  /** The changes between two fields; a constraint change breaks exactly when a bound on both sides gets tighter. */
  function FieldDiff(model: string, o: Field, n: Field): set<Change> {
    (if o.fieldType != n.fieldType then {Change(FieldTypeChanged, Breaking, model, Some(o.name))} else {})
    + (if o.optional != n.optional
       then {Change(FieldOptionalChanged, if n.optional then Backward else Breaking, model, Some(o.name))} else {})
    + (if o.maxLength != n.maxLength || o.minLength != n.minLength
       then {Change(FieldConstraintChanged, if TightensLength(o, n) then Breaking else Backward, model, Some(o.name))}
       else {})
  }

  function Listed(changes: seq<Change>): set<Change> {
    set c | c in changes
  }

  lemma ListedConcat(a: seq<Change>, b: seq<Change>)
    ensures Listed(a + b) == Listed(a) + Listed(b)
  {
  }

  lemma ListedOne(c: Change)
    ensures Listed([c]) == {c} && Listed([]) == {}
  {
  }

  method CompareFields(model: string, o: Field, n: Field) returns (changes: seq<Change>)
    ensures Listed(changes) == FieldDiff(model, o, n)
  {
    var typeChange, optionalChange, constraintChange: seq<Change> := [], [], [];
    if o.fieldType != n.fieldType {
      typeChange := [Change(FieldTypeChanged, Breaking, model, Some(o.name))];
      ListedOne(typeChange[0]);
    }
    if o.optional != n.optional {
      optionalChange := [Change(FieldOptionalChanged, if n.optional then Backward else Breaking, model, Some(o.name))];
      ListedOne(optionalChange[0]);
    }
    if o.maxLength != n.maxLength || o.minLength != n.minLength {
      var compatibility := Backward;
      if Bounded(n.maxLength) && Bounded(o.maxLength) {
        if n.maxLength.value < o.maxLength.value {
          compatibility := Breaking;
        }
      }
      if Bounded(n.minLength) && Bounded(o.minLength) {
        if n.minLength.value > o.minLength.value {
          compatibility := Breaking;
        }
      }
      constraintChange := [Change(FieldConstraintChanged, compatibility, model, Some(o.name))];
      ListedOne(constraintChange[0]);
    }
    ListedConcat(typeChange, optionalChange);
    ListedConcat(typeChange + optionalChange, constraintChange);
    changes := typeChange + optionalChange + constraintChange;
  }

  // ---- Changes of one model ----

  function AddedDiff(model: string, n: map<string, Field>, names: set<string>): set<Change> {
    set f | f in names && f in n :: Change(FieldAdded, if n[f].optional then Backward else Breaking, model, Some(f))
  }

  function RemovedDiff(model: string, names: set<string>): set<Change> {
    set f | f in names :: Change(FieldRemoved, Breaking, model, Some(f))
  }

  function CommonDiff(model: string, o: map<string, Field>, n: map<string, Field>, names: set<string>): set<Change> {
    set f, c | f in names && f in o && f in n && c in FieldDiff(model, o[f], n[f]) :: c
  }

  function ModelDiff(model: string, o: map<string, Field>, n: map<string, Field>): set<Change> {
    AddedDiff(model, n, n.Keys - o.Keys) + RemovedDiff(model, o.Keys - n.Keys)
      + CommonDiff(model, o, n, o.Keys * n.Keys)
  }

  lemma AddedDiffGrows(model: string, n: map<string, Field>, names: set<string>, name: string)
    requires name in n
    ensures AddedDiff(model, n, names + {name})
      == AddedDiff(model, n, names)
        + {Change(FieldAdded, if n[name].optional then Backward else Breaking, model, Some(name))}
  {
  }

  lemma RemovedDiffGrows(model: string, names: set<string>, name: string)
    ensures RemovedDiff(model, names + {name}) == RemovedDiff(model, names)
      + {Change(FieldRemoved, Breaking, model, Some(name))}
  {
  }

  method AddedFields(model: string, n: map<string, Field>, names: set<string>) returns (changes: seq<Change>)
    requires names <= n.Keys
    ensures Listed(changes) == AddedDiff(model, n, names)
  {
    changes := [];
    var todo := names;
    ghost var done := {};
    while todo != {}
      invariant done + todo == names && Listed(changes) == AddedDiff(model, n, done)
      decreases |todo|
    {
      var name :| name in todo;
      todo := todo - {name};
      var change := Change(FieldAdded, if n[name].optional then Backward else Breaking, model, Some(name));
      AddedDiffGrows(model, n, done, name);
      ListedConcat(changes, [change]);
      ListedOne(change);
      changes := changes + [change];
      done := done + {name};
    }
  }

  method RemovedFields(model: string, names: set<string>) returns (changes: seq<Change>)
    ensures Listed(changes) == RemovedDiff(model, names)
  {
    changes := [];
    var todo := names;
    ghost var done := {};
    while todo != {}
      invariant done + todo == names && Listed(changes) == RemovedDiff(model, done)
      decreases |todo|
    {
      var name :| name in todo;
      todo := todo - {name};
      var change := Change(FieldRemoved, Breaking, model, Some(name));
      RemovedDiffGrows(model, done, name);
      ListedConcat(changes, [change]);
      ListedOne(change);
      changes := changes + [change];
      done := done + {name};
    }
  }

  lemma CommonDiffGrows(model: string, o: map<string, Field>, n: map<string, Field>, names: set<string>, name: string)
    requires name in o && name in n
    ensures CommonDiff(model, o, n, names + {name}) == CommonDiff(model, o, n, names)
      + FieldDiff(model, o[name], n[name])
  {
  }

  method ChangedFields(model: string, o: map<string, Field>, n: map<string, Field>, names: set<string>)
    returns (changes: seq<Change>)
    requires names <= o.Keys * n.Keys
    ensures Listed(changes) == CommonDiff(model, o, n, names)
  {
    changes := [];
    var todo := names;
    ghost var done := {};
    while todo != {}
      invariant done + todo == names && Listed(changes) == CommonDiff(model, o, n, done)
      decreases |todo|
    {
      var name :| name in todo;
      todo := todo - {name};
      var more := CompareFields(model, o[name], n[name]);
      CommonDiffGrows(model, o, n, done, name);
      ListedConcat(changes, more);
      changes := changes + more;
      done := done + {name};
    }
  }

  method CompareModels(o: Model, n: Model) returns (changes: seq<Change>)
    ensures Listed(changes) == ModelDiff(o.name, FieldsByName(o.fields), FieldsByName(n.fields))
  {
    var oldFields, newFields := FieldsByName(o.fields), FieldsByName(n.fields);
    var added := AddedFields(o.name, newFields, newFields.Keys - oldFields.Keys);
    var removed := RemovedFields(o.name, oldFields.Keys - newFields.Keys);
    var changed := ChangedFields(o.name, oldFields, newFields, oldFields.Keys * newFields.Keys);
    ListedConcat(added, removed);
    ListedConcat(added + removed, changed);
    changes := added + removed + changed;
  }

  // ---- Changes of a registry ----

  function NamesDiff(names: set<string>, kind: ChangeType, compatibility: Compatibility): set<Change> {
    set m | m in names :: Change(kind, compatibility, m, None)
  }

  function ModelsDiff(o: map<string, Model>, n: map<string, Model>, names: set<string>): set<Change> {
    set m, c | m in names && m in o && m in n
      && c in ModelDiff(o[m].name, FieldsByName(o[m].fields), FieldsByName(n[m].fields)) :: c
  }

  function RegistryDiff(o: map<string, Model>, n: map<string, Model>): set<Change> {
    NamesDiff(n.Keys - o.Keys, ModelAdded, Forward) + NamesDiff(o.Keys - n.Keys, ModelRemoved, Breaking)
    + ModelsDiff(o, n, o.Keys * n.Keys)
  }

  lemma ModelsDiffGrows(o: map<string, Model>, n: map<string, Model>, names: set<string>, name: string)
    requires name in o && name in n
    ensures ModelsDiff(o, n, names + {name})
      == ModelsDiff(o, n, names) + ModelDiff(o[name].name, FieldsByName(o[name].fields), FieldsByName(n[name].fields))
  {
  }

  method ChangedModels(o: map<string, Model>, n: map<string, Model>, names: set<string>) returns (changes: seq<Change>)
    requires names <= o.Keys * n.Keys
    ensures Listed(changes) == ModelsDiff(o, n, names)
  {
    changes := [];
    var todo := names;
    ghost var done := {};
    while todo != {}
      invariant done + todo == names && Listed(changes) == ModelsDiff(o, n, done)
      decreases |todo|
    {
      var name :| name in todo;
      todo := todo - {name};
      var more := CompareModels(o[name], n[name]);
      ModelsDiffGrows(o, n, done, name);
      ListedConcat(changes, more);
      changes := changes + more;
      done := done + {name};
    }
  }

  lemma NamesDiffGrows(names: set<string>, kind: ChangeType, compatibility: Compatibility, name: string)
    ensures NamesDiff(names + {name}, kind, compatibility) == NamesDiff(names, kind, compatibility)
      + {Change(kind, compatibility, name, None)}
  {
  }

  method AddedOrRemovedModels(names: set<string>, kind: ChangeType, compatibility: Compatibility)
    returns (changes: seq<Change>)
    ensures Listed(changes) == NamesDiff(names, kind, compatibility)
  {
    changes := [];
    var todo := names;
    ghost var done := {};
    while todo != {}
      invariant done + todo == names && Listed(changes) == NamesDiff(done, kind, compatibility)
      decreases |todo|
    {
      var name :| name in todo;
      todo := todo - {name};
      var change := Change(kind, compatibility, name, None);
      NamesDiffGrows(done, kind, compatibility, name);
      ListedConcat(changes, [change]);
      ListedOne(change);
      changes := changes + [change];
      done := done + {name};
    }
  }

  /** The list holds every difference between the registries and nothing else. */
  method CompareRegistries(o: Registry, n: Registry) returns (changes: seq<Change>)
    ensures Listed(changes) == RegistryDiff(ModelsByName(o.models), ModelsByName(n.models))
  {
    var oldModels, newModels := ModelsByName(o.models), ModelsByName(n.models);
    var added := AddedOrRemovedModels(newModels.Keys - oldModels.Keys, ModelAdded, Forward);
    var removed := AddedOrRemovedModels(oldModels.Keys - newModels.Keys, ModelRemoved, Breaking);
    var changed := ChangedModels(oldModels, newModels, oldModels.Keys * newModels.Keys);
    ListedConcat(added, removed);
    ListedConcat(added + removed, changed);
    changes := added + removed + changed;
  }

  // ---- Which diffs break ----

  predicate HasBreaking(changes: set<Change>) {
    exists c :: c in changes && c.compatibility == Breaking
  }

  predicate HasBreakingChanges(changes: seq<Change>)
    ensures HasBreakingChanges(changes) <==> HasBreaking(Listed(changes))
  {
    assert forall c :: c in changes <==> c in Listed(changes);
    exists c :: c in changes && c.compatibility == Breaking
  }

  predicate BreaksModel(o: map<string, Field>, n: map<string, Field>) {
    || (exists f :: f in n && f !in o && !n[f].optional)
    || (exists f :: f in o && f !in n)
    || (exists f :: f in o && f in n && BreaksField(o[f], n[f]))
  }

  predicate BreaksRegistry(o: map<string, Model>, n: map<string, Model>) {
    || (exists m :: m in o && m !in n)
    || (exists m :: m in o && m in n && BreaksModel(FieldsByName(o[m].fields), FieldsByName(n[m].fields)))
  }

  lemma FieldDiffBreaks(model: string, o: Field, n: Field)
    ensures HasBreaking(FieldDiff(model, o, n)) <==> BreaksField(o, n)
  {
    if BreaksField(o, n) {
      var kind :=
        if o.fieldType != n.fieldType then FieldTypeChanged
        else if o.optional && !n.optional then FieldOptionalChanged
        else FieldConstraintChanged;
      assert Change(kind, Breaking, model, Some(o.name)) in FieldDiff(model, o, n);
    }
  }

  lemma ModelDiffBreaks(model: string, o: map<string, Field>, n: map<string, Field>)
    ensures HasBreaking(ModelDiff(model, o, n)) <==> BreaksModel(o, n)
  {
    if HasBreaking(ModelDiff(model, o, n)) {
      var c :| c in ModelDiff(model, o, n) && c.compatibility == Breaking;
      if c in CommonDiff(model, o, n, o.Keys * n.Keys) {
        var f :| f in o.Keys * n.Keys && c in FieldDiff(model, o[f], n[f]);
        FieldDiffBreaks(model, o[f], n[f]);
      }
    }
    if f :| f in n && f !in o && !n[f].optional {
      assert Change(FieldAdded, Breaking, model, Some(f)) in AddedDiff(model, n, n.Keys - o.Keys);
    }
    if f :| f in o && f !in n {
      assert Change(FieldRemoved, Breaking, model, Some(f)) in RemovedDiff(model, o.Keys - n.Keys);
    }
    if f :| f in o && f in n && BreaksField(o[f], n[f]) {
      FieldDiffBreaks(model, o[f], n[f]);
      var c :| c in FieldDiff(model, o[f], n[f]) && c.compatibility == Breaking;
      assert c in CommonDiff(model, o, n, o.Keys * n.Keys);
    }
  }

  /** The diff holds a breaking change exactly when a model or field goes, a required field comes, or a field breaks. */
  lemma RegistryDiffBreaks(o: map<string, Model>, n: map<string, Model>)
    ensures HasBreaking(RegistryDiff(o, n)) <==> BreaksRegistry(o, n)
  {
    if HasBreaking(RegistryDiff(o, n)) {
      var c :| c in RegistryDiff(o, n) && c.compatibility == Breaking;
      if c in ModelsDiff(o, n, o.Keys * n.Keys) {
        var m :| m in o.Keys * n.Keys
            && c in ModelDiff(o[m].name, FieldsByName(o[m].fields), FieldsByName(n[m].fields));
        ModelDiffBreaks(o[m].name, FieldsByName(o[m].fields), FieldsByName(n[m].fields));
      }
    }
    if m :| m in o && m !in n {
      assert Change(ModelRemoved, Breaking, m, None) in NamesDiff(o.Keys - n.Keys, ModelRemoved, Breaking);
    }
    if m :| m in o && m in n && BreaksModel(FieldsByName(o[m].fields), FieldsByName(n[m].fields)) {
      ModelDiffBreaks(o[m].name, FieldsByName(o[m].fields), FieldsByName(n[m].fields));
      var c :| c in ModelDiff(o[m].name, FieldsByName(o[m].fields), FieldsByName(n[m].fields))
          && c.compatibility == Breaking;
      assert c in ModelsDiff(o, n, o.Keys * n.Keys);
    }
  }

  /** The two fields agree in all that is compared. */
  predicate SameField(o: Field, n: Field) {
    o.fieldType == n.fieldType && o.optional == n.optional && o.maxLength == n.maxLength && o.minLength == n.minLength
  }

  lemma FieldDiffEmptyIff(model: string, o: Field, n: Field)
    ensures FieldDiff(model, o, n) == {} <==> SameField(o, n)
  {
    var type', optional' := Change(FieldTypeChanged, Breaking, model, Some(o.name)),
        Change(FieldOptionalChanged, if n.optional then Backward else Breaking, model, Some(o.name));
    var bounds' :=
        Change(FieldConstraintChanged, if TightensLength(o, n) then Breaking else Backward, model, Some(o.name));
    assert o.fieldType != n.fieldType ==> type' in FieldDiff(model, o, n);
    assert o.optional != n.optional ==> optional' in FieldDiff(model, o, n);
    assert o.maxLength != n.maxLength || o.minLength != n.minLength ==> bounds' in FieldDiff(model, o, n);
  }

  predicate SameFields(o: map<string, Field>, n: map<string, Field>) {
    o.Keys == n.Keys && forall f :: f in o && f in n ==> SameField(o[f], n[f])
  }

  lemma ModelDiffEmptyIff(model: string, o: map<string, Field>, n: map<string, Field>)
    ensures ModelDiff(model, o, n) == {} <==> SameFields(o, n)
  {
    forall f | f in o && f in n ensures FieldDiff(model, o[f], n[f]) == {} <==> SameField(o[f], n[f]) {
      FieldDiffEmptyIff(model, o[f], n[f]);
    }
    forall f | f in n && f !in o ensures ModelDiff(model, o, n) != {} {
      assert Change(FieldAdded, if n[f].optional then Backward else Breaking, model, Some(f))
          in AddedDiff(model, n, n.Keys - o.Keys);
    }
    forall f | f in o && f !in n ensures ModelDiff(model, o, n) != {} {
      assert Change(FieldRemoved, Breaking, model, Some(f)) in RemovedDiff(model, o.Keys - n.Keys);
    }
    forall f | f in o && f in n && !SameField(o[f], n[f]) ensures ModelDiff(model, o, n) != {} {
      var c :| c in FieldDiff(model, o[f], n[f]);
      assert c in CommonDiff(model, o, n, o.Keys * n.Keys);
    }
  }

  predicate SameModel(o: Model, n: Model) {
    SameFields(FieldsByName(o.fields), FieldsByName(n.fields))
  }

  /** Nothing is listed exactly when the registries have the same models, with the same fields. */
  lemma RegistryDiffEmptyIff(o: map<string, Model>, n: map<string, Model>)
    ensures RegistryDiff(o, n) == {} <==> o.Keys == n.Keys && forall m :: m in o && m in n ==> SameModel(o[m], n[m])
  {
    forall m | m in o && m in n
      ensures ModelDiff(o[m].name, FieldsByName(o[m].fields), FieldsByName(n[m].fields)) == {}
        <==> SameModel(o[m], n[m])
    {
      ModelDiffEmptyIff(o[m].name, FieldsByName(o[m].fields), FieldsByName(n[m].fields));
    }
    forall m | m in n && m !in o ensures RegistryDiff(o, n) != {} {
      assert Change(ModelAdded, Forward, m, None) in NamesDiff(n.Keys - o.Keys, ModelAdded, Forward);
    }
    forall m | m in o && m !in n ensures RegistryDiff(o, n) != {} {
      assert Change(ModelRemoved, Breaking, m, None) in NamesDiff(o.Keys - n.Keys, ModelRemoved, Breaking);
    }
    forall m | m in o && m in n && !SameModel(o[m], n[m]) ensures RegistryDiff(o, n) != {} {
      var c :| c in ModelDiff(o[m].name, FieldsByName(o[m].fields), FieldsByName(n[m].fields));
      assert c in ModelsDiff(o, n, o.Keys * n.Keys);
    }
  }

  // ---- The upgrade check ----

  /** The dot-separated parts of a version, each as an integer where it is one. */
  datatype Version = Version(parts: seq<Option<int>>)

  datatype Verdict = NotAnInteger | Verdict(safe: bool, majorNotRaised: bool)

  ghost predicate Safe(o: Registry, n: Registry) {
    !BreaksRegistry(ModelsByName(o.models), ModelsByName(n.models))
  }

  method ValidateUpgradePath(o: Registry, fromVersion: Version, n: Registry, toVersion: Version) returns (v: Verdict)
    ensures v == NotAnInteger
      <==> |fromVersion.parts| == 3 == |toVersion.parts| && (fromVersion.parts[0].None? || toVersion.parts[0].None?)
    ensures v.Verdict? ==> (v.safe <==> Safe(o, n))
    ensures v.Verdict? ==> (v.majorNotRaised <==> !Safe(o, n) && |fromVersion.parts| == 3 == |toVersion.parts|
                                                  && toVersion.parts[0].value <= fromVersion.parts[0].value)
  {
    var changes := CompareRegistries(o, n);
    var breaking := HasBreakingChanges(changes);
    RegistryDiffBreaks(ModelsByName(o.models), ModelsByName(n.models));
    var majorNotRaised := false;
    if |fromVersion.parts| == 3 && |toVersion.parts| == 3 {
      if fromVersion.parts[0].None? || toVersion.parts[0].None? {
        return NotAnInteger;
      }
      majorNotRaised := breaking && toVersion.parts[0].value <= fromVersion.parts[0].value;
    }
    return Verdict(!breaking, majorNotRaised);
  }

  // ---- What the verdict means for data ----

  datatype Value = Value(fieldType: FieldType, length: nat)

  type Record = map<string, Value>

  /** `sized` are the field types whose values have a length that the bounds constrain. */
  predicate AcceptsValue(sized: set<FieldType>, f: Field, v: Value) {
    && v.fieldType == f.fieldType
    && (f.fieldType in sized && Bounded(f.maxLength) ==> v.length <= f.maxLength.value)
    && (f.fieldType in sized && Bounded(f.minLength) ==> v.length >= f.minLength.value)
  }

  predicate AcceptsFields(sized: set<FieldType>, fields: map<string, Field>, r: Record) {
    && r.Keys <= fields.Keys
    && forall f :: f in fields ==> if f in r then AcceptsValue(sized, fields[f], r[f]) else fields[f].optional
  }

  predicate Accepts(sized: set<FieldType>, registry: Registry, model: string, r: Record) {
    var models := ModelsByName(registry.models);
    model in models && AcceptsFields(sized, FieldsByName(models[model].fields), r)
  }

  ghost predicate ModelKeepsData(sized: set<FieldType>, o: Registry, n: Registry, m: string) {
    forall r :: Accepts(sized, o, m, r) ==> Accepts(sized, n, m, r)
  }

  /** Every record the old registry accepts is accepted by the new one. */
  ghost predicate DataCompatible(sized: set<FieldType>, o: Registry, n: Registry) {
    forall m :: ModelKeepsData(sized, o, n, m)
  }

  /** The field gets a length bound that restricts something where it had none. */
  predicate GainsBound(sized: set<FieldType>, o: Field, n: Field) {
    && n.fieldType in sized
    && ((!Bounded(o.maxLength) && Bounded(n.maxLength))
        || (!Bounded(o.minLength) && Bounded(n.minLength) && n.minLength.value > 0))
  }

  // ---- The exact condition ----

  /** Some value fits the field: its bounds do not exclude each other, nor every length. */
  predicate Satisfiable(sized: set<FieldType>, f: Field) {
    f.fieldType in sized && Bounded(f.maxLength) ==>
      f.maxLength.value >= if Bounded(f.minLength) then Max(0, f.minLength.value) else 0
  }

  function ShortestValue(f: Field): Value {
    Value(f.fieldType, if Bounded(f.minLength) && f.minLength.value > 0 then f.minLength.value else 0)
  }

  /** A value the old field takes and the new one, having gained a bound, refuses. */
  function Refused(o: Field, n: Field): Value {
    if !Bounded(o.maxLength) && Bounded(n.maxLength)
    then Value(o.fieldType, Max(ShortestValue(o).length, n.maxLength.value + 1))
    else ShortestValue(o)
  }

  lemma GainedBoundRefuses(sized: set<FieldType>, o: Field, n: Field)
    requires GainsBound(sized, o, n) && Satisfiable(sized, o) && o.fieldType == n.fieldType
    ensures AcceptsValue(sized, o, Refused(o, n)) && !AcceptsValue(sized, n, Refused(o, n))
  {
  }

  /** Every required field can be filled, so some record fits. */
  predicate Inhabited(sized: set<FieldType>, fields: map<string, Field>) {
    forall f :: f in fields && !fields[f].optional ==> Satisfiable(sized, fields[f])
  }

  lemma AcceptedIsSatisfiable(sized: set<FieldType>, f: Field, v: Value)
    requires AcceptsValue(sized, f, v)
    ensures Satisfiable(sized, f)
  {
  }

  /** The record that fills just the required fields. */
  function RequiredOnly(fields: map<string, Field>): Record {
    map k | k in fields && !fields[k].optional :: ShortestValue(fields[k])
  }

  /** A model has records at all exactly when each of its required fields can be filled. */
  lemma InhabitedIffSomeRecord(sized: set<FieldType>, fields: map<string, Field>)
    ensures Inhabited(sized, fields) <==> exists r :: AcceptsFields(sized, fields, r)
    ensures Inhabited(sized, fields) ==> AcceptsFields(sized, fields, RequiredOnly(fields))
  {
    if Inhabited(sized, fields) {
      forall k | k in fields && !fields[k].optional ensures AcceptsValue(sized, fields[k], ShortestValue(fields[k])) {
        assert Satisfiable(sized, fields[k]);
      }
      assert AcceptsFields(sized, fields, RequiredOnly(fields));
    }
    if r :| AcceptsFields(sized, fields, r) {
      forall f | f in fields && !fields[f].optional ensures Satisfiable(sized, fields[f]) {
        AcceptedIsSatisfiable(sized, fields[f], r[f]);
      }
    }
  }

  /** A field that some record of its model can hold gains a length bound. */
  predicate UsableFieldGainsBound(sized: set<FieldType>, o: map<string, Field>, n: map<string, Field>, f: string) {
    f in o && f in n && Inhabited(sized, o) && Satisfiable(sized, o[f]) && GainsBound(sized, o[f], n[f])
  }

  lemma UnbrokenFieldAccepts(sized: set<FieldType>, o: Field, n: Field, v: Value)
    requires !BreaksField(o, n) && !GainsBound(sized, o, n) && AcceptsValue(sized, o, v)
    ensures AcceptsValue(sized, n, v)
  {
  }

  ghost predicate KeepsRecords(sized: set<FieldType>, o: map<string, Field>, n: map<string, Field>) {
    forall r :: AcceptsFields(sized, o, r) ==> AcceptsFields(sized, n, r)
  }

  predicate SomeUsableFieldGainsBound(sized: set<FieldType>, o: map<string, Field>, n: map<string, Field>) {
    exists f :: f in o && UsableFieldGainsBound(sized, o, n, f)
  }

  lemma UnbrokenModelKeepsRecordsIff(sized: set<FieldType>, o: map<string, Field>, n: map<string, Field>)
    requires !BreaksModel(o, n)
    ensures KeepsRecords(sized, o, n) <==> !SomeUsableFieldGainsBound(sized, o, n)
  {
    if f :| f in o && UsableFieldGainsBound(sized, o, n, f) {
      assert !BreaksField(o[f], n[f]);
      GainedBoundRefuses(sized, o[f], n[f]);
      InhabitedIffSomeRecord(sized, o);
      var r := RequiredOnly(o)[f := Refused(o[f], n[f])];
      assert AcceptsFields(sized, o, r) && !AcceptsValue(sized, n[f], r[f]);
    } else {
      forall r | AcceptsFields(sized, o, r) ensures AcceptsFields(sized, n, r) {
        UnbrokenModelAccepts(sized, o, n, r);
      }
    }
  }

  lemma UnbrokenModelAccepts(sized: set<FieldType>, o: map<string, Field>, n: map<string, Field>, r: Record)
    requires !BreaksModel(o, n) && AcceptsFields(sized, o, r)
    requires !SomeUsableFieldGainsBound(sized, o, n)
    ensures AcceptsFields(sized, n, r)
  {
    InhabitedIffSomeRecord(sized, o);
    forall f | f in n ensures if f in r then AcceptsValue(sized, n[f], r[f]) else n[f].optional {
      if f in o {
        assert !BreaksField(o[f], n[f]);
        assert !UsableFieldGainsBound(sized, o, n, f);
        if f in r {
          AcceptedIsSatisfiable(sized, o[f], r[f]);
          UnbrokenFieldAccepts(sized, o[f], n[f], r[f]);
        }
      }
    }
  }

  predicate ModelGainsBound(sized: set<FieldType>, o: Registry, n: Registry, m: string) {
    var os, ns := ModelsByName(o.models), ModelsByName(n.models);
    m in os && m in ns && SomeUsableFieldGainsBound(sized, FieldsByName(os[m].fields), FieldsByName(ns[m].fields))
  }

  lemma ModelKeepsDataIff(sized: set<FieldType>, o: Registry, n: Registry, m: string)
    requires Safe(o, n)
    ensures ModelKeepsData(sized, o, n, m) <==> !ModelGainsBound(sized, o, n, m)
  {
    var os, ns := ModelsByName(o.models), ModelsByName(n.models);
    if m in os {
      var ofs, nfs := FieldsByName(os[m].fields), FieldsByName(ns[m].fields);
      UnbrokenModelKeepsRecordsIff(sized, ofs, nfs);
      if ModelKeepsData(sized, o, n, m) {
        forall r | AcceptsFields(sized, ofs, r) ensures AcceptsFields(sized, nfs, r) {
          assert Accepts(sized, o, m, r);
        }
      }
    }
  }

  /**
   An upgrade that the check calls safe keeps all old data valid if and only if, in no model that
   has records at all, a surviving field that can be filled gains a length bound where it had
   none. The check itself does not look for that, so this is the condition a caller has to add.
   */
  lemma SafeUpgradeKeepsDataIff(sized: set<FieldType>, o: Registry, n: Registry)
    requires Safe(o, n)
    ensures DataCompatible(sized, o, n) <==> forall m :: !ModelGainsBound(sized, o, n, m)
  {
    forall m ensures ModelKeepsData(sized, o, n, m) <==> !ModelGainsBound(sized, o, n, m) {
      ModelKeepsDataIff(sized, o, n, m);
    }
  }

  // ---- What a breaking verdict means ----

  /** Bounds stand only where they can restrict something: on types with a length, and a lower one above zero. */
  predicate BoundsMatter(sized: set<FieldType>, f: Field) {
    && (Bounded(f.maxLength) || Bounded(f.minLength) ==> f.fieldType in sized)
    && (Bounded(f.minLength) ==> f.minLength.value > 0)
  }

  predicate Meaningful(sized: set<FieldType>, fields: map<string, Field>) {
    forall f :: f in fields ==> Satisfiable(sized, fields[f]) && BoundsMatter(sized, fields[f])
  }

  /** A value that the old field takes and the broken one refuses. */
  function Excluded(o: Field, n: Field): Value {
    if o.fieldType == n.fieldType && Bounded(n.maxLength) && Bounded(o.maxLength)
      && n.maxLength.value < o.maxLength.value
    then Value(o.fieldType, Max(0, o.maxLength.value))
    else ShortestValue(o)
  }

  lemma BrokenFieldRefuses(sized: set<FieldType>, o: Field, n: Field)
    requires Satisfiable(sized, o) && BoundsMatter(sized, o) && BoundsMatter(sized, n)
    requires o.fieldType != n.fieldType || TightensLength(o, n)
    ensures AcceptsValue(sized, o, Excluded(o, n)) && !AcceptsValue(sized, n, Excluded(o, n))
  {
  }

  lemma BrokenModelLosesRecord(sized: set<FieldType>, o: map<string, Field>, n: map<string, Field>)
    requires Meaningful(sized, o) && (forall f :: f in n ==> BoundsMatter(sized, n[f])) && BreaksModel(o, n)
    ensures !KeepsRecords(sized, o, n)
  {
    InhabitedIffSomeRecord(sized, o);
    var r := RequiredOnly(o);
    if f :| f in n && f !in o && !n[f].optional {
      assert !AcceptsFields(sized, n, r);
    } else if f :| f in o && f !in n {
      ShortestFits(sized, o[f]);
      assert AcceptsFields(sized, o, r[f := ShortestValue(o[f])])
          && !AcceptsFields(sized, n, r[f := ShortestValue(o[f])]);
    } else {
      var f :| f in o && f in n && BreaksField(o[f], n[f]);
      if o[f].fieldType != n[f].fieldType || TightensLength(o[f], n[f]) {
        BrokenFieldRefuses(sized, o[f], n[f]);
        assert AcceptsFields(sized, o, r[f := Excluded(o[f], n[f])])
            && !AcceptsFields(sized, n, r[f := Excluded(o[f], n[f])]);
      } else {
        assert !AcceptsFields(sized, n, r);
      }
    }
  }

  lemma ShortestFits(sized: set<FieldType>, f: Field)
    requires Satisfiable(sized, f)
    ensures AcceptsValue(sized, f, ShortestValue(f))
  {
  }

  ghost predicate AllMeaningful(sized: set<FieldType>, registry: Registry) {
    var models := ModelsByName(registry.models);
    forall m :: m in models ==> Meaningful(sized, FieldsByName(models[m].fields))
  }

  /**
   A breaking verdict is no false alarm: between registries whose fields can all be filled and
   whose bounds can all restrict something, old data stays valid if and only if the upgrade is
   called safe and no model gains a bound.
   */
  lemma DataCompatibleIffSafe(sized: set<FieldType>, o: Registry, n: Registry)
    requires AllMeaningful(sized, o) && AllMeaningful(sized, n)
    ensures DataCompatible(sized, o, n) <==> Safe(o, n) && forall m :: !ModelGainsBound(sized, o, n, m)
  {
    var os, ns := ModelsByName(o.models), ModelsByName(n.models);
    if Safe(o, n) {
      SafeUpgradeKeepsDataIff(sized, o, n);
    } else if m :| m in os && m !in ns {
      InhabitedIffSomeRecord(sized, FieldsByName(os[m].fields));
      assert Accepts(sized, o, m, RequiredOnly(FieldsByName(os[m].fields)));
      assert !ModelKeepsData(sized, o, n, m);
    } else {
      var m :| m in os && m in ns && BreaksModel(FieldsByName(os[m].fields), FieldsByName(ns[m].fields));
      BrokenModelLosesRecord(sized, FieldsByName(os[m].fields), FieldsByName(ns[m].fields));
      var r :| AcceptsFields(sized, FieldsByName(os[m].fields), r)
          && !AcceptsFields(sized, FieldsByName(ns[m].fields), r);
      assert Accepts(sized, o, m, r) && !Accepts(sized, n, m, r);
      assert !ModelKeepsData(sized, o, n, m);
    }
  }

  /** Of several fields with one name the last counts, and of several models too. */
  lemma {:induction false} LastFieldCounts(fields: seq<Field>, i: nat)
    requires i < |fields| && forall j :: i < j < |fields| ==> fields[j].name != fields[i].name
    ensures fields[i].name in FieldsByName(fields) && FieldsByName(fields)[fields[i].name] == fields[i]
  {
    if i < |fields| - 1 {
      LastFieldCounts(fields[..|fields| - 1], i);
    }
  }

  lemma {:induction false} LastModelCounts(models: seq<Model>, i: nat)
    requires i < |models| && forall j :: i < j < |models| ==> models[j].name != models[i].name
    ensures models[i].name in ModelsByName(models) && ModelsByName(models)[models[i].name] == models[i]
  {
    if i < |models| - 1 {
      LastModelCounts(models[..|models| - 1], i);
    }
  }

  // ---- Chains of upgrades ----

  predicate GainsAnyBound(o: Field, n: Field) {
    (!Bounded(o.maxLength) && Bounded(n.maxLength)) || (!Bounded(o.minLength) && Bounded(n.minLength))
  }

  ghost predicate NoFieldGainsAnyBound(o: Registry, n: Registry) {
    var os, ns := ModelsByName(o.models), ModelsByName(n.models);
    forall m, f :: m in os && m in ns && f in FieldsByName(os[m].fields) && f in FieldsByName(ns[m].fields)
      ==> !GainsAnyBound(FieldsByName(os[m].fields)[f], FieldsByName(ns[m].fields)[f])
  }

  lemma FieldsCompose(a: map<string, Field>, b: map<string, Field>, c: map<string, Field>)
    requires !BreaksModel(a, b) && !BreaksModel(b, c)
    requires forall f :: f in a && f in b ==> !GainsAnyBound(a[f], b[f])
    requires forall f :: f in b && f in c ==> !GainsAnyBound(b[f], c[f])
    ensures !BreaksModel(a, c)
    ensures forall f :: f in a && f in c ==> !GainsAnyBound(a[f], c[f])
  {
    forall f | f in a && f in c ensures !BreaksField(a[f], c[f]) && !GainsAnyBound(a[f], c[f]) {
      assert f in b && !BreaksField(a[f], b[f]) && !BreaksField(b[f], c[f]);
    }
    forall f | f in c && f !in a ensures c[f].optional {
      if f in b {
        assert !BreaksField(b[f], c[f]);
      }
    }
  }

  /** Two safe upgrades in a row are one safe upgrade, provided no length bound is gained on the way. */
  lemma SafeUpgradesCompose(a: Registry, b: Registry, c: Registry)
    requires Safe(a, b) && Safe(b, c)
    requires NoFieldGainsAnyBound(a, b) && NoFieldGainsAnyBound(b, c)
    ensures Safe(a, c) && NoFieldGainsAnyBound(a, c)
  {
    var am, bm, cm := ModelsByName(a.models), ModelsByName(b.models), ModelsByName(c.models);
    forall m | m in am && m in cm
      ensures !BreaksModel(FieldsByName(am[m].fields), FieldsByName(cm[m].fields))
      ensures forall f :: f in FieldsByName(am[m].fields) && f in FieldsByName(cm[m].fields)
                ==> !GainsAnyBound(FieldsByName(am[m].fields)[f], FieldsByName(cm[m].fields)[f])
    {
      assert m in bm;
      FieldsCompose(FieldsByName(am[m].fields), FieldsByName(bm[m].fields), FieldsByName(cm[m].fields));
    }
  }

  ghost predicate SafeChain(chain: seq<Registry>) {
    forall i :: 0 < i < |chain| ==> Safe(chain[i - 1], chain[i]) && NoFieldGainsAnyBound(chain[i - 1], chain[i])
  }

  lemma SafeChainKeepsData(sized: set<FieldType>, a: Registry, b: Registry)
    requires Safe(a, b) && NoFieldGainsAnyBound(a, b)
    ensures DataCompatible(sized, a, b)
  {
    forall m ensures !ModelGainsBound(sized, a, b, m) {
      assert NoFieldGainsAnyBound(a, b);
    }
    SafeUpgradeKeepsDataIff(sized, a, b);
  }

  /** Along any chain of such upgrades, the direct comparison of the ends is safe and keeps all old data valid. */
  lemma {:induction false} ChainKeepsData(sized: set<FieldType>, chain: seq<Registry>)
    requires |chain| > 1 && SafeChain(chain)
    ensures Safe(chain[0], chain[|chain| - 1]) && NoFieldGainsAnyBound(chain[0], chain[|chain| - 1])
    ensures DataCompatible(sized, chain[0], chain[|chain| - 1])
  {
    var last := |chain| - 1;
    if last == 1 {
      assert chain[1 - 1] == chain[0];
    } else {
      ChainKeepsData(sized, chain[..last]);
      assert Safe(chain[last - 1], chain[last]);
      SafeUpgradesCompose(chain[0], chain[last - 1], chain[last]);
    }
    SafeChainKeepsData(sized, chain[0], chain[last]);
  }

  /** A registry is always a safe upgrade of itself, which gains no bound, so such chains exist from every registry. */
  lemma UpgradeToItself(a: Registry)
    ensures Safe(a, a) && NoFieldGainsAnyBound(a, a) && SafeChain([a, a])
  {
  }

  /** A bound of zero is no bound: it restricts no value, and it makes no difference to the verdict. */
  lemma ZeroIsNoBound(sized: set<FieldType>, f: Field, other: Field, v: Value)
    ensures AcceptsValue(sized, f.(maxLength := Some(0)), v) <==> AcceptsValue(sized, f.(maxLength := None), v)
    ensures AcceptsValue(sized, f.(minLength := Some(0)), v) <==> AcceptsValue(sized, f.(minLength := None), v)
    ensures BreaksField(f.(maxLength := Some(0)), other) <==> BreaksField(f.(maxLength := None), other)
    ensures BreaksField(other, f.(minLength := Some(0))) <==> BreaksField(other, f.(minLength := None))
    ensures f.maxLength != Some(0) && f.maxLength != None && f.fieldType in sized ==>
      (AcceptsValue(sized, f, v) ==> v.length <= f.maxLength.value)
  {
  }

  /** Registries whose fields can be filled and whose bounds matter exist, with and without bounds. */
  lemma MeaningfulExamples(max: Option<int>)
    requires max.Some? ==> max.value > 0
    ensures AllMeaningful({StringType}, OneField(max))
  {
    OneFieldMaps(max);
  }

  // ---- When safety is transitive ----

  /** A bound of `o` is gone in `m` and is back, tighter, in `n`. */
  predicate BoundReturnsTighter(o: Field, m: Field, n: Field) {
    || (Bounded(o.maxLength) && !Bounded(m.maxLength) && Bounded(n.maxLength) && n.maxLength.value < o.maxLength.value)
    || (Bounded(o.minLength) && !Bounded(m.minLength) && Bounded(n.minLength) && n.minLength.value > o.minLength.value)
  }

  lemma FieldBreaksIff(o: Field, m: Field, n: Field)
    requires !BreaksField(o, m) && !BreaksField(m, n)
    ensures BreaksField(o, n) <==> BoundReturnsTighter(o, m, n)
  {
  }

  predicate SomeBoundReturnsTighter(a: map<string, Field>, b: map<string, Field>, c: map<string, Field>) {
    exists f :: f in a && f in b && f in c && BoundReturnsTighter(a[f], b[f], c[f])
  }

  lemma ModelBreaksIff(a: map<string, Field>, b: map<string, Field>, c: map<string, Field>)
    requires !BreaksModel(a, b) && !BreaksModel(b, c)
    ensures BreaksModel(a, c) <==> SomeBoundReturnsTighter(a, b, c)
  {
    forall f | f in a && f in b && f in c ensures BreaksField(a[f], c[f]) <==> BoundReturnsTighter(a[f], b[f], c[f]) {
      assert !BreaksField(a[f], b[f]) && !BreaksField(b[f], c[f]);
      FieldBreaksIff(a[f], b[f], c[f]);
    }
    assert forall f :: f in a ==> f in b && f in c;
    forall f | f in c && f !in a ensures c[f].optional {
      assert f in b ==> !BreaksField(b[f], c[f]);
    }
  }

  /** Some surviving field has a bound in `a`, none in `b`, and a tighter one again in `c`. */
  ghost predicate SomeFieldBoundReturnsTighter(a: Registry, b: Registry, c: Registry) {
    var am, bm, cm := ModelsByName(a.models), ModelsByName(b.models), ModelsByName(c.models);
    exists m :: m in am && m in bm && m in cm
      && SomeBoundReturnsTighter(FieldsByName(am[m].fields), FieldsByName(bm[m].fields), FieldsByName(cm[m].fields))
  }

  /**
   Two safe upgrades in a row compare as one safe upgrade if and only if no length bound was
   dropped by the first and brought back tighter by the second.
   */
  lemma SafeUpgradesComposeIff(a: Registry, b: Registry, c: Registry)
    requires Safe(a, b) && Safe(b, c)
    ensures Safe(a, c) <==> !SomeFieldBoundReturnsTighter(a, b, c)
  {
    var am, bm, cm := ModelsByName(a.models), ModelsByName(b.models), ModelsByName(c.models);
    forall m | m in am
      ensures m in bm && m in cm
      ensures BreaksModel(FieldsByName(am[m].fields), FieldsByName(cm[m].fields))
        <==> SomeBoundReturnsTighter(FieldsByName(am[m].fields), FieldsByName(bm[m].fields), FieldsByName(cm[m].fields))
    {
      assert m in bm && m in cm;
      ModelBreaksIff(FieldsByName(am[m].fields), FieldsByName(bm[m].fields), FieldsByName(cm[m].fields));
    }
  }

  /** Without the proviso, safe upgrades do not compose: dropping a bound and adding a tighter one are each safe. */
  lemma SafetyAloneDoesNotCompose()
    ensures exists a, b, c :: Safe(a, b) && Safe(b, c) && !Safe(a, c)
  {
    var a, b, c := OneField(Some(5)), OneField(None), OneField(Some(3));
    OneFieldMaps(Some(5));
    OneFieldMaps(None);
    OneFieldMaps(Some(3));
    assert Safe(a, b) && Safe(b, c);
    var before, after := map["title" := TextField(Some(5))], map["title" := TextField(Some(3))];
    assert "title" in before && "title" in after && BreaksField(before["title"], after["title"]);
    assert "Note" in ModelsByName(a.models) && "Note" in ModelsByName(c.models);
    assert !Safe(a, c);
  }

  function TextField(max: Option<int>): Field {
    Field("title", StringType, false, max, None)
  }

  function OneField(max: Option<int>): Registry {
    Registry([Model("Note", [TextField(max)])])
  }

  lemma OneFieldMaps(max: Option<int>)
    ensures ModelsByName(OneField(max).models) == map["Note" := Model("Note", [TextField(max)])]
    ensures FieldsByName([TextField(max)]) == map["title" := TextField(max)]
  {
    assert OneField(max).models[..0] == [];
    assert [TextField(max)][..0] == [];
  }

  /** A safe upgrade that loses data: a text field without a bound gets one. */
  lemma SafeUpgradeCanLoseData()
    ensures Safe(OneField(None), OneField(Some(3)))
    ensures !DataCompatible({StringType}, OneField(None), OneField(Some(3)))
  {
    OneFieldMaps(None);
    OneFieldMaps(Some(3));
    var o, n := map["title" := TextField(None)], map["title" := TextField(Some(3))];
    assert Safe(OneField(None), OneField(Some(3)));
    assert UsableFieldGainsBound({StringType}, o, n, "title");
    assert ModelGainsBound({StringType}, OneField(None), OneField(Some(3)), "Note");
    SafeUpgradeKeepsDataIff({StringType}, OneField(None), OneField(Some(3)));
  }
}
