/**
 Bindings between workflow steps: `{"$step": name, "pointer": p}` inside a
 step's arguments stands for part of an earlier step's result. The validator
 runs before anything starts; `Resolve` runs when the step does.

 An object's members are an unordered map here. Where the program reports the
 first failure in key order, the model reports the set of all of them.
 */
module WorkflowBindings {
  import opened Wrappers
  import opened JsonValue
  import opened JsonPointer

  const STEP_FIELD: string := "$step"
  const POINTER_FIELD: string := "pointer"
  const MAX_DEPTH: nat := 32

  datatype BindError =
    | TooDeep
    | ExtraMembers
    | StepNotName
    | UnknownStep(unknown: string)
    | PointerNotString
    | PointerSyntax
    | Unavailable(name: string, pointer: string)

  predicate IsBinding(value: Json) { value.Object? && STEP_FIELD in value.fields }

  function OfMembers<E>(parts: map<string, set<E>>): set<E> { set key, e | key in parts && e in parts[key] :: e }

  function OfItems<E>(parts: seq<set<E>>): set<E> { set i, e | 0 <= i < |parts| && e in parts[i] :: e }

  // --- Validation ---------------------------------------------------------

  function BindingFaults(fields: map<string, Json>, names: set<string>): set<BindError>
    requires STEP_FIELD in fields
  {
    if |fields| != 2 then {ExtraMembers}
    else if !fields[STEP_FIELD].Str? then {StepNotName}
    else if fields[STEP_FIELD].text !in names then {UnknownStep(fields[STEP_FIELD].text)}
    else if POINTER_FIELD !in fields || !fields[POINTER_FIELD].Str? then {PointerNotString}
    else if fields[POINTER_FIELD].text != [] && fields[POINTER_FIELD].text[0] != '/' then {PointerSyntax}
    else {}
  }

  /** Everything `validate_bindings` can object to; it accepts exactly when this is empty. */
  function Faults(value: Json, names: set<string>, depth: nat): set<BindError>
    decreases value
  {
    if depth > MAX_DEPTH then {TooDeep}
    else if IsBinding(value) then BindingFaults(value.fields, names)
    else
      match value
      case Object(fields) => OfMembers(map key | key in fields :: Faults(fields[key], names, depth + 1))
      case Array(items) => OfItems(seq(|items|, i requires 0 <= i < |items| => Faults(items[i], names, depth + 1)))
      case _ => {}
  }

  // --- Resolution ---------------------------------------------------------

  /** The value a binding stands for. */
  function Bound(previous: map<string, Json>, name: string, pointer: string): Option<Json> {
    if name in previous then Pointer(previous[name], pointer) else None
  }

  function ResolveBinding(fields: map<string, Json>, previous: map<string, Json>): Result<Json, set<BindError>>
    requires STEP_FIELD in fields
  {
    if !fields[STEP_FIELD].Str? then Err({StepNotName})
    else if POINTER_FIELD !in fields || !fields[POINTER_FIELD].Str? then Err({PointerNotString})
    else
      match Bound(previous, fields[STEP_FIELD].text, fields[POINTER_FIELD].text)
      case None => Err({Unavailable(fields[STEP_FIELD].text, fields[POINTER_FIELD].text)})
      case Some(value) => Ok(value)
  }

  function Errors(r: Result<Json, set<BindError>>): set<BindError> { if r.Err? then r.error else {} }

  /** An object of resolved members, or all their errors. */
  function Members(parts: map<string, Result<Json, set<BindError>>>): Result<Json, set<BindError>> {
    if forall key | key in parts :: parts[key].Ok? then Ok(Object(map key | key in parts :: parts[key].value))
    else Err(OfMembers(map key | key in parts :: Errors(parts[key])))
  }

  /** An array of resolved items, or all their errors. */
  function Sequence(parts: seq<Result<Json, set<BindError>>>): Result<Json, set<BindError>> {
    if forall i | 0 <= i < |parts| :: parts[i].Ok? then
      Ok(Array(seq(|parts|, i requires 0 <= i < |parts| => parts[i].value)))
    else Err(OfItems(seq(|parts|, i requires 0 <= i < |parts| => Errors(parts[i]))))
  }

  function Resolve(value: Json, previous: map<string, Json>, depth: nat): Result<Json, set<BindError>>
    decreases value
  {
    if depth > MAX_DEPTH then Err({TooDeep})
    else if IsBinding(value) then ResolveBinding(value.fields, previous)
    else
      match value
      case Object(fields) => Members(map key | key in fields :: Resolve(fields[key], previous, depth + 1))
      case Array(items) =>
        Sequence(seq(|items|, i requires 0 <= i < |items| => Resolve(items[i], previous, depth + 1)))
      case _ => Ok(value)
  }

  // --- Validation is complete for resolution -------------------------------

  datatype Binding = Binding(name: string, pointer: string)

  /** The bindings of a template, wherever they stand. */
  function Bindings(value: Json): set<Binding>
    decreases value
  {
    if IsBinding(value) then
      if value.fields[STEP_FIELD].Str? && POINTER_FIELD in value.fields && value.fields[POINTER_FIELD].Str? then
        {Binding(value.fields[STEP_FIELD].text, value.fields[POINTER_FIELD].text)}
      else {}
    else
      match value
      case Object(fields) => OfMembers(map key | key in fields :: Bindings(fields[key]))
      case Array(items) => OfItems(seq(|items|, i requires 0 <= i < |items| => Bindings(items[i])))
      case _ => {}
  }

  ghost predicate Available(previous: map<string, Json>, b: Binding) { Bound(previous, b.name, b.pointer).Some? }

  /** Why a resolution of a validated template failed: one of its bindings, and nothing else. */
  ghost predicate OnlyUnavailable(errors: set<BindError>, bindings: set<Binding>, previous: map<string, Json>) {
    forall e | e in errors ::
      e.Unavailable? && Binding(e.name, e.pointer) in bindings && !Available(previous, Binding(e.name, e.pointer))
  }

  /** What the agreement theorem says of one template. */
  ghost predicate Agrees(r: Result<Json, set<BindError>>, bindings: set<Binding>, previous: map<string, Json>) {
    && (r.Ok? <==> forall b | b in bindings :: Available(previous, b))
    && (r.Err? ==> OnlyUnavailable(r.error, bindings, previous))
  }

  lemma FaultsOfMember(value: Json, names: set<string>, depth: nat, key: string)
    requires value.Object? && !IsBinding(value) && key in value.fields && depth <= MAX_DEPTH
    ensures Faults(value.fields[key], names, depth + 1) <= Faults(value, names, depth)
  {
    var parts := map k | k in value.fields :: Faults(value.fields[k], names, depth + 1);
    assert parts[key] == Faults(value.fields[key], names, depth + 1);
    assert Faults(value, names, depth) == OfMembers(parts);
  }

  lemma FaultsOfItem(value: Json, names: set<string>, depth: nat, i: nat)
    requires value.Array? && i < |value.items| && depth <= MAX_DEPTH
    ensures Faults(value.items[i], names, depth + 1) <= Faults(value, names, depth)
  {
    var items := value.items;
    var parts := seq(|items|, j requires 0 <= j < |items| => Faults(items[j], names, depth + 1));
    assert parts[i] == Faults(items[i], names, depth + 1);
    assert Faults(value, names, depth) == OfItems(parts);
  }

  lemma MembersAgree(
    parts: map<string, Result<Json, set<BindError>>>, bindings: map<string, set<Binding>>, previous: map<string, Json>)
    requires parts.Keys == bindings.Keys
    requires forall key | key in parts :: Agrees(parts[key], bindings[key], previous)
    ensures Agrees(Members(parts), OfMembers(bindings), previous)
  {
    if Members(parts).Ok? {
      forall b | b in OfMembers(bindings)
        ensures Available(previous, b)
      {
        var key :| key in bindings && b in bindings[key];
        assert Agrees(parts[key], bindings[key], previous);
      }
    } else {
      var bad :| bad in parts && parts[bad].Err?;
      assert Agrees(parts[bad], bindings[bad], previous);
      var b :| b in bindings[bad] && !Available(previous, b);
      assert b in OfMembers(bindings);
      forall e | e in Members(parts).error
        ensures e.Unavailable? && Binding(e.name, e.pointer) in OfMembers(bindings)
                && !Available(previous, Binding(e.name, e.pointer))
      {
        var key :| key in parts && e in Errors(parts[key]);
        assert Agrees(parts[key], bindings[key], previous);
      }
    }
  }

  lemma ItemsAgree(
    parts: seq<Result<Json, set<BindError>>>, bindings: seq<set<Binding>>, previous: map<string, Json>)
    requires |parts| == |bindings|
    requires forall i | 0 <= i < |parts| :: Agrees(parts[i], bindings[i], previous)
    ensures Agrees(Sequence(parts), OfItems(bindings), previous)
  {
    if Sequence(parts).Ok? {
      forall b | b in OfItems(bindings)
        ensures Available(previous, b)
      {
        var i :| 0 <= i < |bindings| && b in bindings[i];
        assert Agrees(parts[i], bindings[i], previous);
      }
    } else {
      var bad :| 0 <= bad < |parts| && parts[bad].Err?;
      assert Agrees(parts[bad], bindings[bad], previous);
      var b :| b in bindings[bad] && !Available(previous, b);
      assert b in OfItems(bindings);
      forall e | e in Sequence(parts).error
        ensures e.Unavailable? && Binding(e.name, e.pointer) in OfItems(bindings)
                && !Available(previous, Binding(e.name, e.pointer))
      {
        var i :| 0 <= i < |parts| && e in Errors(parts[i]);
        assert Agrees(parts[i], bindings[i], previous);
      }
    }
  }

  /**
   The agreement theorem: a template that was accepted resolves exactly when all
   its bindings are available, and otherwise fails for an unavailable binding;
   never for depth, shape or a name the validator did not know.
   */
  lemma {:induction false} ValidatedResolves(value: Json, names: set<string>, previous: map<string, Json>, depth: nat)
    requires Faults(value, names, depth) == {}
    ensures Agrees(Resolve(value, previous, depth), Bindings(value), previous)
    ensures forall b | b in Bindings(value) :: b.name in names
    decreases value
  {
    if !IsBinding(value) && value.Object? {
      var fields := value.fields;
      forall key | key in fields
        ensures Agrees(Resolve(fields[key], previous, depth + 1), Bindings(fields[key]), previous)
        ensures forall b | b in Bindings(fields[key]) :: b.name in names
      {
        FaultsOfMember(value, names, depth, key);
        ValidatedResolves(fields[key], names, previous, depth + 1);
      }
      MembersAgree(map key | key in fields :: Resolve(fields[key], previous, depth + 1),
                   map key | key in fields :: Bindings(fields[key]), previous);
    } else if value.Array? {
      var items := value.items;
      forall i | 0 <= i < |items|
        ensures Agrees(Resolve(items[i], previous, depth + 1), Bindings(items[i]), previous)
        ensures forall b | b in Bindings(items[i]) :: b.name in names
      {
        FaultsOfItem(value, names, depth, i);
        ValidatedResolves(items[i], names, previous, depth + 1);
      }
      ItemsAgree(seq(|items|, i requires 0 <= i < |items| => Resolve(items[i], previous, depth + 1)),
                 seq(|items|, i requires 0 <= i < |items| => Bindings(items[i])), previous);
    }
  }

  // --- Simultaneous substitution ------------------------------------------

  /** What one node of a value shows: a scalar, a length or a set of keys. */
  datatype Shape = Scalar(value: Json) | Items(count: nat) | Keys(keys: set<string>)

  datatype Hop = Key(key: string) | At(index: nat)

  function ShapeOf(value: Json): Shape {
    match value
    case Object(fields) => Keys(fields.Keys)
    case Array(items) => Items(|items|)
    case _ => Scalar(value)
  }

  function Down(value: Json, hop: Hop): Option<Json> {
    match hop
    case Key(key) => Field(value, key)
    case At(index) => if value.Array? && index < |value.items| then Some(value.items[index]) else None
  }

  /** The shape at the end of a path. */
  function ShapeAt(value: Json, path: seq<Hop>): Option<Shape>
    decreases |path|
  {
    if path == [] then Some(ShapeOf(value))
    else
      match Down(value, path[0])
      case None => None
      case Some(child) => ShapeAt(child, path[1..])
  }

  /**
   The reference: walk the template; the first binding met hands the rest of the
   path over to the earlier result, whatever that contains.
   */
  function Substituted(value: Json, previous: map<string, Json>, path: seq<Hop>): Option<Shape>
    decreases |path|
  {
    if IsBinding(value) then
      if value.fields[STEP_FIELD].Str? && POINTER_FIELD in value.fields && value.fields[POINTER_FIELD].Str? then
        match Bound(previous, value.fields[STEP_FIELD].text, value.fields[POINTER_FIELD].text)
        case None => None
        case Some(target) => ShapeAt(target, path)
      else None
    else if path == [] then Some(ShapeOf(value))
    else
      match Down(value, path[0])
      case None => None
      case Some(child) => Substituted(child, previous, path[1..])
  }

  lemma ResolvedMember(value: Json, previous: map<string, Json>, depth: nat, hop: Hop)
    requires !IsBinding(value) && Resolve(value, previous, depth).Ok? && Down(value, hop).Some?
    ensures var child := Resolve(Down(value, hop).value, previous, depth + 1);
            child.Ok? && Down(Resolve(value, previous, depth).value, hop) == Some(child.value)
  {
    match value
    case Object(fields) =>
      var parts := map key | key in fields :: Resolve(fields[key], previous, depth + 1);
      assert parts[hop.key].Ok?;
    case Array(items) =>
      var parts := seq(|items|, i requires 0 <= i < |items| => Resolve(items[i], previous, depth + 1));
      assert parts[hop.index].Ok?;
  }

  lemma ResolvedShape(value: Json, previous: map<string, Json>, depth: nat)
    requires !IsBinding(value) && Resolve(value, previous, depth).Ok?
    ensures ShapeOf(Resolve(value, previous, depth).value) == ShapeOf(value)
    ensures forall hop :: Down(value, hop).None? ==> Down(Resolve(value, previous, depth).value, hop).None?
  {
    match value
    case Object(fields) =>
      assert (map key | key in fields :: Resolve(fields[key], previous, depth + 1)).Keys == fields.Keys;
      assert Resolve(value, previous, depth).value.fields.Keys == fields.Keys;
    case _ =>
  }

  /** A resolved template shows, at every path, what one simultaneous substitution shows. */
  lemma {:induction false} ResolveIsSubstitution(value: Json, previous: map<string, Json>, depth: nat, path: seq<Hop>)
    requires Resolve(value, previous, depth).Ok?
    ensures ShapeAt(Resolve(value, previous, depth).value, path) == Substituted(value, previous, path)
    decreases |path|
  {
    if !IsBinding(value) {
      ResolvedShape(value, previous, depth);
      if path != [] && Down(value, path[0]).Some? {
        ResolvedMember(value, previous, depth, path[0]);
        ResolveIsSubstitution(Down(value, path[0]).value, previous, depth + 1, path[1..]);
      }
    }
  }

  /** Shapes at all paths determine a value, so the reference determines the result. */
  lemma {:induction false} ShapesDetermine(a: Json, b: Json)
    requires forall path: seq<Hop> :: ShapeAt(a, path) == ShapeAt(b, path)
    ensures a == b
    decreases a
  {
    assert ShapeAt(a, []) == ShapeAt(b, []);
    match a
    case Object(fields) =>
      forall key | key in fields
        ensures fields[key] == b.fields[key]
      {
        forall path: seq<Hop>
          ensures ShapeAt(fields[key], path) == ShapeAt(b.fields[key], path)
        {
          assert ([Key(key)] + path)[1..] == path;
          assert ShapeAt(a, [Key(key)] + path) == ShapeAt(b, [Key(key)] + path);
        }
        ShapesDetermine(fields[key], b.fields[key]);
      }
      assert fields == b.fields;
    case Array(items) =>
      forall i | 0 <= i < |items|
        ensures items[i] == b.items[i]
      {
        forall path: seq<Hop>
          ensures ShapeAt(items[i], path) == ShapeAt(b.items[i], path)
        {
          assert ([At(i)] + path)[1..] == path;
          assert ShapeAt(a, [At(i)] + path) == ShapeAt(b, [At(i)] + path);
        }
        ShapesDetermine(items[i], b.items[i]);
      }
      assert items == b.items;
    case _ =>
  }

  ghost predicate BindingFree(value: Json)
    decreases value
  {
    && !IsBinding(value)
    && match value
       case Object(fields) => forall key | key in fields :: BindingFree(fields[key])
       case Array(items) => forall i | 0 <= i < |items| :: BindingFree(items[i])
       case _ => true
  }

  /** Without bindings, an accepted template is its own resolution. */
  lemma {:induction false} NothingToResolve(value: Json, names: set<string>, previous: map<string, Json>, depth: nat)
    requires BindingFree(value) && Faults(value, names, depth) == {}
    ensures Resolve(value, previous, depth) == Ok(value)
    decreases value
  {
    if value.Object? {
      var fields := value.fields;
      forall key | key in fields
        ensures Resolve(fields[key], previous, depth + 1) == Ok(fields[key])
      {
        FaultsOfMember(value, names, depth, key);
        NothingToResolve(fields[key], names, previous, depth + 1);
      }
      var parts := map key | key in fields :: Resolve(fields[key], previous, depth + 1);
      assert (map key | key in parts :: parts[key].value) == fields;
    } else if value.Array? {
      var items := value.items;
      forall i | 0 <= i < |items|
        ensures Resolve(items[i], previous, depth + 1) == Ok(items[i])
      {
        FaultsOfItem(value, names, depth, i);
        NothingToResolve(items[i], names, previous, depth + 1);
      }
      var parts := seq(|items|, i requires 0 <= i < |items| => Resolve(items[i], previous, depth + 1));
      assert seq(|parts|, i requires 0 <= i < |parts| => parts[i].value) == items;
    }
  }
}
