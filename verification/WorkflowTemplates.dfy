/**
 Which templates are accepted, node by node, and where a pointer leads, step by
 step, arrays included.
 */
module WorkflowTemplates {
  import opened Wrappers
  import opened JsonValue
  import opened JsonPointer
  import opened WorkflowBindings

  // --- Acceptance -----------------------------------------------------------

  /** The node of a template at the end of a path; a binding has nothing below it. */
  function NodeAt(value: Json, path: seq<Hop>): Option<Json>
    decreases |path|
  {
    if path == [] then Some(value)
    else if value.Object? && "$step" in value.fields then None
    else
      match Down(value, path[0])
      case None => None
      case Some(child) => NodeAt(child, path[1..])
  }

  /** A binding is exactly a name of an earlier step and a pointer that is empty or begins with a slash. */
  predicate IsSound(fields: map<string, Json>, names: set<string>) {
    && fields.Keys == {"$step", "pointer"}
    && fields["$step"].Str? && fields["$step"].text in names
    && fields["pointer"].Str?
    && (fields["pointer"].text == "" || fields["pointer"].text[0] == '/')
  }

  /** What is asked of one node: at most 32 levels down, and sound if it is a binding. */
  predicate NodeOk(node: Json, level: nat, names: set<string>) {
    level <= 32 && (node.Object? && "$step" in node.fields ==> IsSound(node.fields, names))
  }

  ghost predicate AllNodesOk(value: Json, names: set<string>, depth: nat) {
    forall path: seq<Hop> | NodeAt(value, path).Some? :: NodeOk(NodeAt(value, path).value, depth + |path|, names)
  }

  lemma TwoFields(fields: map<string, Json>)
    requires "$step" in fields && "pointer" in fields
    ensures |fields| == 2 <==> fields.Keys == {"$step", "pointer"}
  {
    var rest := fields.Keys - {"$step", "pointer"};
    assert "$step" != "pointer" by { assert |"$step"| == 5; }
    assert fields.Keys == rest + {"$step", "pointer"};
    assert |fields| == |fields.Keys| == |rest| + |{"$step", "pointer"}|;
  }

  lemma SoundExactly(fields: map<string, Json>, names: set<string>)
    requires "$step" in fields
    ensures BindingFaults(fields, names) == {} <==> IsSound(fields, names)
  {
    if "pointer" in fields {
      TwoFields(fields);
    }
  }

  lemma {:induction false} AcceptedNode(value: Json, names: set<string>, depth: nat, path: seq<Hop>)
    requires Faults(value, names, depth) == {} && NodeAt(value, path).Some?
    ensures NodeOk(NodeAt(value, path).value, depth + |path|, names)
    decreases |path|
  {
    if path == [] {
      if value.Object? && "$step" in value.fields {
        SoundExactly(value.fields, names);
      }
    } else {
      if path[0].Key? {
        FaultsOfMember(value, names, depth, path[0].key);
      } else {
        FaultsOfItem(value, names, depth, path[0].index);
      }
      AcceptedNode(Down(value, path[0]).value, names, depth + 1, path[1..]);
    }
  }

  lemma BelowIsOk(value: Json, names: set<string>, depth: nat, hop: Hop)
    requires AllNodesOk(value, names, depth) && !(value.Object? && "$step" in value.fields) && Down(value, hop).Some?
    ensures AllNodesOk(Down(value, hop).value, names, depth + 1)
  {
    var child := Down(value, hop).value;
    forall path: seq<Hop> | NodeAt(child, path).Some?
      ensures NodeOk(NodeAt(child, path).value, depth + 1 + |path|, names)
    {
      var longer := [hop] + path;
      assert longer[1..] == path;
      assert NodeAt(value, longer) == NodeAt(child, path);
    }
  }

  lemma {:induction false} OkIsAccepted(value: Json, names: set<string>, depth: nat)
    requires AllNodesOk(value, names, depth)
    ensures Faults(value, names, depth) == {}
    decreases value
  {
    assert NodeAt(value, []) == Some(value);
    assert NodeOk(value, depth, names);
    if value.Object? && "$step" in value.fields {
      SoundExactly(value.fields, names);
    } else if value.Object? {
      var fields := value.fields;
      var parts := map key | key in fields :: Faults(fields[key], names, depth + 1);
      forall key | key in fields ensures parts[key] == {} {
        BelowIsOk(value, names, depth, Key(key));
        OkIsAccepted(fields[key], names, depth + 1);
      }
      assert Faults(value, names, depth) == OfMembers(parts);
    } else if value.Array? {
      var items := value.items;
      var parts := seq(|items|, i requires 0 <= i < |items| => Faults(items[i], names, depth + 1));
      forall i | 0 <= i < |items| ensures parts[i] == {} {
        BelowIsOk(value, names, depth, At(i));
        OkIsAccepted(items[i], names, depth + 1);
      }
      assert Faults(value, names, depth) == OfItems(parts);
    }
  }

  /** The validator accepts a template exactly when every one of its nodes is as it should be. */
  lemma AcceptedExactly(value: Json, names: set<string>)
    ensures Faults(value, names, 0) == {} <==> AllNodesOk(value, names, 0)
  {
    if Faults(value, names, 0) == {} {
      forall path: seq<Hop> | NodeAt(value, path).Some? ensures NodeOk(NodeAt(value, path).value, |path|, names) {
        AcceptedNode(value, names, 0, path);
      }
    } else if AllNodesOk(value, names, 0) {
      OkIsAccepted(value, names, 0);
    }
  }

  // --- Where pointers lead ------------------------------------------------------

  /** A number in decimal, without leading zeros. */
  function Decimal(n: nat): (s: string)
    ensures |s| > 0
  {
    if n < 10 then [Digit(n)] else Decimal(n / 10) + [Digit(n % 10)]
  }

  function Digit(n: nat): char
    requires n < 10
  {
    "0123456789"[n]
  }

  lemma {:induction false} DecimalReadsBack(n: nat)
    ensures var s := Decimal(n);
            Digits(s) && Number(s) == n && (s[0] == '0' ==> n == 0)
  {
    if n >= 10 {
      DecimalReadsBack(n / 10);
      var head := Decimal(n / 10);
      assert Decimal(n)[..|head|] == head;
    } else {
      assert [Digit(n)][..0] == [];
    }
  }

  function Token(hop: Hop): string {
    match hop
    case Key(key) => key
    case At(index) => Decimal(index)
  }

  function TokensOf(path: seq<Hop>): seq<string> {
    if path == [] then [] else [Token(path[0])] + TokensOf(path[1..])
  }

  /** What is found by going down a path, one member or item at a time. */
  function Reached(value: Json, path: seq<Hop>): Option<Json>
    decreases |path|
  {
    if path == [] then Some(value)
    else
      match Down(value, path[0])
      case None => None
      case Some(child) => Reached(child, path[1..])
  }

  lemma ChildIsDown(value: Json, hop: Hop)
    requires Down(value, hop).Some?
    ensures Child(value, Token(hop)) == Down(value, hop)
  {
    if hop.At? {
      DecimalReadsBack(hop.index);
      assert |Decimal(hop.index)| > 0;
    }
  }

  lemma {:induction false} WalkFollows(value: Json, path: seq<Hop>)
    requires Reached(value, path).Some?
    ensures Walk(value, TokensOf(path)) == Reached(value, path)
    decreases |path|
  {
    if path != [] {
      ChildIsDown(value, path[0]);
      assert TokensOf(path)[1..] == TokensOf(path[1..]);
      WalkFollows(Down(value, path[0]).value, path[1..]);
    }
  }

  /** Every place in a value, in objects and arrays, has a pointer that leads exactly there. */
  lemma PointerFollows(value: Json, path: seq<Hop>)
    requires Reached(value, path).Some?
    ensures Pointer(value, Print(TokensOf(path))) == Reached(value, path)
  {
    WalkFollows(value, path);
    PointerRoundTrip(value, TokensOf(path));
  }

  /** So a binding hands over exactly the part of the earlier result that its pointer names. */
  lemma BindingHandsOver(previous: map<string, Json>, name: string, path: seq<Hop>, depth: nat)
    requires name in previous && Reached(previous[name], path).Some? && depth <= 32
    ensures var binding := Object(map["$step" := Str(name), "pointer" := Str(Print(TokensOf(path)))]);
            Resolve(binding, previous, depth) == Ok(Reached(previous[name], path).value)
  {
    PointerFollows(previous[name], path);
    assert "$step" != "pointer" by { assert |"$step"| == 5; }
  }
}
