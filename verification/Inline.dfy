/** Flattening a verdict's JSON schema: every local reference replaced by its definition (jobs/spec.py). `None` stands
    for the exception the flattening raises. */
module Inline {
  import opened Basics

  datatype Json =
    | Obj(fields: map<string, Json>)
    | Arr(items: seq<Json>)
    | Str(text: string)
    | Scalar(literal: string)

  type Defs = map<string, Json>

  const MAX_REF_DEPTH: nat := 8

  const PREFIX := "#/$defs/"

  /** A string reference; a `$ref` of any other kind is an ordinary key. */
  predicate IsRef(node: Json) { node.Obj? && "$ref" in node.fields && node.fields["$ref"].Str? }

  function RefOf(node: Json): string requires IsRef(node) { node.fields["$ref"].text }

  /** The definition a reference names, if there is one. */
  function NameOf(defs: Defs, ref: string): (r: Option<string>)
    ensures r.Some? ==> r.value in defs && ref == PREFIX + r.value
    ensures r.None? ==> !exists name :: name in defs && ref == PREFIX + name
  {
    if PREFIX <= ref && ref[|PREFIX|..] in defs then Some(ref[|PREFIX|..])
    else
      assert forall name: string :: (PREFIX + name)[|PREFIX|..] == name;
      None
  }

  lemma NameOfPrefixed(defs: Defs, name: string)
    requires name in defs
    ensures NameOf(defs, PREFIX + name) == Some(name)
  {
    assert (PREFIX + name)[|PREFIX|..] == name;
  }

  /** All or nothing. */
  function AllFields(m: map<string, Option<Json>>): Option<map<string, Json>> {
    if forall k :: k in m ==> m[k].Some? then Some(map k | k in m :: m[k].value) else None
  }

  function AllItems(s: seq<Option<Json>>): Option<seq<Json>> {
    if forall i :: 0 <= i < |s| ==> s[i].Some? then Some(seq(|s|, i requires 0 <= i < |s| => s[i].value)) else None
  }

  /** Inlining, with the definitions being expanded. It terminates because each of them adds to `seen`, which is
      bounded, and otherwise the node shrinks. */
  function Inlined(node: Json, defs: Defs, seen: seq<string>): Option<Json>
    decreases if |seen| <= MAX_REF_DEPTH then MAX_REF_DEPTH - |seen| else 0, node
  {
    match node
    case Obj(fields) =>
      if IsRef(node) then
        var name := NameOf(defs, RefOf(node));
        if name.None? || name.value in seen || |seen| >= MAX_REF_DEPTH then None
        else
          var target := Inlined(defs[name.value], defs, seen + [name.value]);
          var siblings := AllFields(map k | k in fields && k != "$ref" :: Inlined(fields[k], defs, seen));
          if target.None? || !target.value.Obj? || siblings.None? then None
          else Some(Obj(target.value.fields + siblings.value))
      else
        var own := AllFields(map k | k in fields :: Inlined(fields[k], defs, seen));
        if own.None? then None else Some(Obj(own.value))
    case Arr(items) =>
      var own := AllItems(seq(|items|, i requires 0 <= i < |items| => Inlined(items[i], defs, seen)));
      if own.None? then None else Some(Arr(own.value))
    case Str(_) => Some(node)
    case Scalar(_) => Some(node)
  }

  /** The schema with its definitions taken out and every reference to them replaced. */
  function OutputSchema(schema: map<string, Json>): Option<Json> {
    Inlined(Obj(schema - {"$defs"}), DefsOf(schema), [])
  }

  function DefsOf(schema: map<string, Json>): Defs {
    if "$defs" in schema && schema["$defs"].Obj? then schema["$defs"].fields else map[]
  }

  // ----- one level of the recursion -----

  lemma PlainObjects(node: Json, defs: Defs, seen: seq<string>)
    requires node.Obj? && !IsRef(node)
    ensures var r, f := Inlined(node, defs, seen), node.fields;
            && (r.Some? <==> forall k :: k in f ==> Inlined(f[k], defs, seen).Some?)
            && (r.Some? ==> r.value.Obj? && r.value.fields.Keys == f.Keys)
            && (r.Some? ==> forall k :: k in f ==> r.value.fields[k] == Inlined(f[k], defs, seen).value)
  {
    var all := map k | k in node.fields :: Inlined(node.fields[k], defs, seen);
    assert forall k :: k in node.fields ==> all[k] == Inlined(node.fields[k], defs, seen);
  }

  lemma Arrays(node: Json, defs: Defs, seen: seq<string>)
    requires node.Arr?
    ensures var r, s := Inlined(node, defs, seen), node.items;
            && (r.Some? <==> forall i :: 0 <= i < |s| ==> Inlined(s[i], defs, seen).Some?)
            && (r.Some? ==> r.value.Arr? && |r.value.items| == |s|)
            && (r.Some? ==> forall i :: 0 <= i < |s| ==> r.value.items[i] == Inlined(s[i], defs, seen).value)
  {
    var s := node.items;
    var all := seq(|s|, i requires 0 <= i < |s| => Inlined(s[i], defs, seen));
    assert forall i :: 0 <= i < |s| ==> all[i] == Inlined(s[i], defs, seen);
  }

  /** A reference can be followed: it names a definition not being expanded yet, and not too many are. */
  predicate Followed(node: Json, defs: Defs, seen: seq<string>)
    requires IsRef(node)
  {
    var name := NameOf(defs, RefOf(node));
    name.Some? && name.value !in seen && |seen| < MAX_REF_DEPTH
  }

  lemma References(node: Json, defs: Defs, seen: seq<string>)
    requires IsRef(node)
    ensures var r, f := Inlined(node, defs, seen), node.fields;
            && (r.Some? ==> r.value.Obj? && Followed(node, defs, seen))
            && (Followed(node, defs, seen) ==>
                  var name := NameOf(defs, RefOf(node)).value;
                  var target := Inlined(defs[name], defs, seen + [name]);
                  && (r.Some? <==> target.Some? && target.value.Obj? &&
                                   forall k :: k in f && k != "$ref" ==> Inlined(f[k], defs, seen).Some?)
                  && (r.Some? ==> r.value.fields.Keys == target.value.fields.Keys + (f.Keys - {"$ref"}))
                  && (r.Some? ==> forall k :: k in r.value.fields ==>
                        r.value.fields[k] == if k in f && k != "$ref" then Inlined(f[k], defs, seen).value
                                             else target.value.fields[k]))
  {
    var f := node.fields;
    var all := map k | k in f && k != "$ref" :: Inlined(f[k], defs, seen);
    assert forall k :: k in f && k != "$ref" ==> k in all && all[k] == Inlined(f[k], defs, seen);
  }

  /** A value of one kind stays of that kind. */
  lemma KindKept(node: Json, defs: Defs, seen: seq<string>)
    requires Inlined(node, defs, seen).Some?
    ensures var r := Inlined(node, defs, seen).value;
            (r.Obj? <==> node.Obj?) && (r.Arr? <==> node.Arr?) && (r.Str? <==> node.Str?)
  {}

  // ----- no references are left -----

  /** No string reference anywhere. */
  predicate RefFree(node: Json) {
    match node
    case Obj(fields) => !IsRef(node) && forall k :: k in fields ==> RefFree(fields[k])
    case Arr(items) => forall i :: 0 <= i < |items| ==> RefFree(items[i])
    case Str(_) => true
    case Scalar(_) => true
  }

  lemma {:induction false} InlinedIsRefFree(node: Json, defs: Defs, seen: seq<string>)
    requires Inlined(node, defs, seen).Some?
    ensures RefFree(Inlined(node, defs, seen).value)
    decreases if |seen| <= MAX_REF_DEPTH then MAX_REF_DEPTH - |seen| else 0, node
  {
    match node
    case Obj(fields) =>
      if IsRef(node) { References(node, defs, seen); } else { PlainObjects(node, defs, seen); }
      hide Inlined;
      forall k | k in fields && Inlined(fields[k], defs, seen).Some?
        ensures RefFree(Inlined(fields[k], defs, seen).value)
        ensures Inlined(fields[k], defs, seen).value.Str? <==> fields[k].Str?
      {
        InlinedIsRefFree(fields[k], defs, seen);
        KindKept(fields[k], defs, seen);
      }
      if IsRef(node) {
        var name := NameOf(defs, RefOf(node)).value;
        InlinedIsRefFree(defs[name], defs, seen + [name]);
      }
    case Arr(items) =>
      Arrays(node, defs, seen);
      hide Inlined;
      forall i | 0 <= i < |items| ensures RefFree(Inlined(node, defs, seen).value.items[i]) {
        InlinedIsRefFree(items[i], defs, seen);
      }
    case Str(_) =>
    case Scalar(_) =>
  }

  lemma {:induction false} RefFreeIsFixed(node: Json, defs: Defs, seen: seq<string>)
    requires RefFree(node)
    ensures Inlined(node, defs, seen) == Some(node)
    decreases node
  {
    match node
    case Obj(fields) =>
      PlainObjects(node, defs, seen);
      hide Inlined;
      forall k | k in fields ensures Inlined(fields[k], defs, seen) == Some(fields[k]) {
        RefFreeIsFixed(fields[k], defs, seen);
      }
      assert Inlined(node, defs, seen).value.fields == fields;
    case Arr(items) =>
      Arrays(node, defs, seen);
      hide Inlined;
      forall i | 0 <= i < |items| ensures Inlined(items[i], defs, seen) == Some(items[i]) {
        RefFreeIsFixed(items[i], defs, seen);
      }
      assert Inlined(node, defs, seen).value.items == items;
    case Str(_) =>
    case Scalar(_) =>
  }

  /** The result is a fixed point, whatever definitions are around; and only such values are. */
  lemma InliningTwiceIsOnce(node: Json, defs: Defs, others: Defs)
    ensures var r := Inlined(node, defs, []); r.Some? ==> Inlined(r.value, others, []) == r
    ensures Inlined(node, defs, []) == Some(node) <==> RefFree(node)
  {
    hide Inlined, RefFree;
    var r := Inlined(node, defs, []);
    if r.Some? {
      InlinedIsRefFree(node, defs, []);
      RefFreeIsFixed(r.value, others, []);
    }
    if RefFree(node) { RefFreeIsFixed(node, defs, []); }
  }

  // ----- the value does not depend on where the expansion stands -----

  ghost predicate Less(less: seq<string>, seen: seq<string>) {
    |less| <= |seen| && forall name :: name in less ==> name in seen
  }

  lemma LessMore(less: seq<string>, seen: seq<string>, name: string)
    requires Less(less, seen)
    ensures Less(less + [name], seen + [name])
  {}

  lemma {:induction false} FewerSeen(node: Json, defs: Defs, seen: seq<string>, less: seq<string>)
    requires Inlined(node, defs, seen).Some? && Less(less, seen)
    ensures Inlined(node, defs, less) == Inlined(node, defs, seen)
    decreases if |seen| <= MAX_REF_DEPTH then MAX_REF_DEPTH - |seen| else 0, node
  {
    match node
    case Obj(fields) =>
      hide Inlined, Less, IsRef;
      forall k | k in fields && Inlined(fields[k], defs, seen).Some?
        ensures Inlined(fields[k], defs, less) == Inlined(fields[k], defs, seen)
      {
        FewerSeen(fields[k], defs, seen, less);
      }
      if IsRef(node) {
        FewerSeenReference(node, defs, seen, less);
      } else {
        PlainObjects(node, defs, seen);
        PlainObjects(node, defs, less);
        assert Inlined(node, defs, less).value.fields == Inlined(node, defs, seen).value.fields;
      }
    case Arr(items) =>
      hide Inlined, Less;
      Arrays(node, defs, seen);
      Arrays(node, defs, less);
      forall i | 0 <= i < |items| ensures Inlined(items[i], defs, less) == Inlined(items[i], defs, seen) {
        FewerSeen(items[i], defs, seen, less);
      }
      assert Inlined(node, defs, less).value.items == Inlined(node, defs, seen).value.items;
    case Str(_) =>
    case Scalar(_) =>
  }

  lemma {:induction false} FewerSeenReference(node: Json, defs: Defs, seen: seq<string>, less: seq<string>)
    requires IsRef(node) && Inlined(node, defs, seen).Some? && Less(less, seen)
    requires forall k :: k in node.fields && Inlined(node.fields[k], defs, seen).Some? ==>
               Inlined(node.fields[k], defs, less) == Inlined(node.fields[k], defs, seen)
    ensures Inlined(node, defs, less) == Inlined(node, defs, seen)
    decreases if |seen| <= MAX_REF_DEPTH then MAX_REF_DEPTH - |seen| else 0, node, 0
  {
    hide Inlined, IsRef, RefOf;
    References(node, defs, seen);
    References(node, defs, less);
    var name := NameOf(defs, RefOf(node)).value;
    LessMore(less, seen, name);
    FewerSeen(defs[name], defs, seen + [name], less + [name]);
    assert Inlined(node, defs, less).value.fields == Inlined(node, defs, seen).value.fields;
  }

  // ----- the flat schema says what the schema with references said -----

  datatype Step = Key(key: string) | At(index: nat)

  /** One step into a value, taking it as it stands. */
  function Plain(node: Json, step: Step): Option<Json> {
    if step.Key? && node.Obj? && step.key in node.fields then Some(node.fields[step.key])
    else if step.At? && node.Arr? && step.index < |node.items| then Some(node.items[step.index])
    else None
  }

  /** One step into a schema with references: a reference is looked up on demand, its own keys first. */
  function Lazy(node: Json, defs: Defs, step: Step, hops: nat): Option<Json>
    decreases hops
  {
    if !IsRef(node) then Plain(node, step)
    else if step.Key? && step.key != "$ref" && step.key in node.fields then Some(node.fields[step.key])
    else
      var name := NameOf(defs, RefOf(node));
      if name.None? || hops == 0 then None else Lazy(defs[name.value], defs, step, hops - 1)
  }

  function PlainPath(node: Json, path: seq<Step>): Option<Json> {
    if path == [] then Some(node)
    else
      var next := Plain(node, path[0]);
      if next.None? then None else PlainPath(next.value, path[1..])
  }

  function LazyPath(node: Json, defs: Defs, path: seq<Step>, hops: nat): Option<Json>
    decreases |path|
  {
    if path == [] then Some(node)
    else
      var next := Lazy(node, defs, path[0], hops);
      if next.None? then None else LazyPath(next.value, defs, path[1..], hops)
  }

  lemma {:induction false} StepReadsTheSame(node: Json, defs: Defs, seen: seq<string>, step: Step, hops: nat)
    requires Inlined(node, defs, seen).Some? && |seen| <= MAX_REF_DEPTH && hops >= MAX_REF_DEPTH - |seen|
    ensures var flat, lazy := Plain(Inlined(node, defs, seen).value, step), Lazy(node, defs, step, hops);
            && (flat.Some? <==> lazy.Some?)
            && (lazy.Some? ==> Inlined(lazy.value, defs, []) == flat)
    decreases MAX_REF_DEPTH - |seen|
  {
    hide Inlined;
    KindKept(node, defs, seen);
    var r := Inlined(node, defs, seen).value;
    if IsRef(node) {
      References(node, defs, seen);
      var name := NameOf(defs, RefOf(node)).value;
      if step.Key? && step.key != "$ref" && step.key in node.fields {
        FewerSeen(node.fields[step.key], defs, seen, []);
      } else {
        StepReadsTheSame(defs[name], defs, seen + [name], step, hops - 1);
      }
    } else if node.Obj? {
      PlainObjects(node, defs, seen);
      if step.Key? && step.key in node.fields { FewerSeen(node.fields[step.key], defs, seen, []); }
    } else if node.Arr? {
      Arrays(node, defs, seen);
      if step.At? && step.index < |node.items| { FewerSeen(node.items[step.index], defs, seen, []); }
    }
  }

  /** Every path reads the same in the flat schema as in the original with references followed on demand, siblings
      first: it exists in both or in neither, and what the original holds there flattens to what the result holds. */
  lemma {:induction false} EveryPathReadsTheSame(node: Json, defs: Defs, path: seq<Step>, hops: nat)
    requires Inlined(node, defs, []).Some? && hops >= MAX_REF_DEPTH
    ensures var flat, lazy := PlainPath(Inlined(node, defs, []).value, path), LazyPath(node, defs, path, hops);
            && (flat.Some? <==> lazy.Some?)
            && (lazy.Some? ==> Inlined(lazy.value, defs, []) == flat)
            && (lazy.Some? && (lazy.value.Str? || lazy.value.Scalar?) ==> lazy == flat)
    decreases |path|
  {
    if path != [] {
      StepReadsTheSame(node, defs, [], path[0], hops);
      hide Inlined;
      var next := Lazy(node, defs, path[0], hops);
      if next.Some? { EveryPathReadsTheSame(next.value, defs, path[1..], hops); }
    }
  }

  /** What is handed on is an object without references. It has no definitions of its own unless the root is itself
      a reference to something that does; otherwise it keeps exactly the root's other keys. */
  lemma OutputIsFlat(schema: map<string, Json>)
    ensures var r, root := OutputSchema(schema), Obj(schema - {"$defs"});
            r.Some? ==>
              && r.value.Obj? && RefFree(r.value)
              && ("$defs" in r.value.fields <==> Lazy(root, DefsOf(schema), Key("$defs"), MAX_REF_DEPTH).Some?)
              && (!IsRef(root) ==> r.value.fields.Keys == schema.Keys - {"$defs"})
  {
    var root, defs := Obj(schema - {"$defs"}), DefsOf(schema);
    if Inlined(root, defs, []).Some? {
      hide Inlined, RefFree;
      KindKept(root, defs, []);
      InlinedIsRefFree(root, defs, []);
      StepReadsTheSame(root, defs, [], Key("$defs"), MAX_REF_DEPTH);
      if !IsRef(root) { PlainObjects(root, defs, []); }
    }
  }

  // ----- which outputs still hold definitions -----

  /** The key occurs nowhere in the value. */
  predicate NoKey(node: Json, key: string) {
    match node
    case Obj(fields) => key !in fields && forall k :: k in fields ==> NoKey(fields[k], key)
    case Arr(items) => forall i :: 0 <= i < |items| ==> NoKey(items[i], key)
    case Str(_) => true
    case Scalar(_) => true
  }

  lemma PathOfOne(node: Json, step: Step)
    ensures PlainPath(node, [step]) == Plain(node, step)
  {
    assert [step][1..] == [];
  }

  /** A value holds the key exactly when some path ends in it. */
  lemma {:induction false} KeyHasAPath(node: Json, key: string) returns (path: seq<Step>)
    requires !NoKey(node, key)
    ensures PlainPath(node, path + [Key(key)]).Some?
  {
    if node.Obj? && key in node.fields {
      path := [];
      PathOfOne(node, Key(key));
      assert [] + [Key(key)] == [Key(key)];
    } else if node.Obj? {
      var k :| k in node.fields && !NoKey(node.fields[k], key);
      var rest := KeyHasAPath(node.fields[k], key);
      path := [Key(k)] + rest;
      assert (path + [Key(key)])[1..] == rest + [Key(key)];
    } else {
      var i :| 0 <= i < |node.items| && !NoKey(node.items[i], key);
      var rest := KeyHasAPath(node.items[i], key);
      path := [At(i)] + rest;
      assert (path + [Key(key)])[1..] == rest + [Key(key)];
    }
  }

  lemma {:induction false} PathHasTheKey(node: Json, key: string, path: seq<Step>)
    requires PlainPath(node, path + [Key(key)]).Some?
    ensures !NoKey(node, key)
    decreases |path|
  {
    var all := path + [Key(key)];
    if path == [] {
      assert all == [Key(key)];
      PathOfOne(node, Key(key));
    } else {
      assert all[1..] == path[1..] + [Key(key)];
      PathHasTheKey(Plain(node, path[0]).value, key, path[1..]);
    }
  }

  /** The output is free of definitions, at every depth, exactly when no path through the schema, references followed on
      demand, ends in such a key. */
  lemma OutputHoldsNoDefsExactlyWhen(schema: map<string, Json>)
    ensures var r, root := OutputSchema(schema), Obj(schema - {"$defs"});
            r.Some? ==>
              (NoKey(r.value, "$defs") <==>
                 forall path :: LazyPath(root, DefsOf(schema), path + [Key("$defs")], MAX_REF_DEPTH).None?)
  {
    var root, defs := Obj(schema - {"$defs"}), DefsOf(schema);
    var r := Inlined(root, defs, []);
    if r.Some? {
      hide Inlined, NoKey, LazyPath, PlainPath;
      forall path
        ensures PlainPath(r.value, path + [Key("$defs")]).Some? <==>
                LazyPath(root, defs, path + [Key("$defs")], MAX_REF_DEPTH).Some?
      {
        EveryPathReadsTheSame(root, defs, path + [Key("$defs")], MAX_REF_DEPTH);
      }
      if !NoKey(r.value, "$defs") {
        var path := KeyHasAPath(r.value, "$defs");
        assert LazyPath(root, defs, path + [Key("$defs")], MAX_REF_DEPTH).Some?;
      }
      if path :| LazyPath(root, defs, path + [Key("$defs")], MAX_REF_DEPTH).Some? {
        PathHasTheKey(r.value, "$defs", path);
      }
    }
  }

  /** A key that neither the schema nor any definition holds is not in the result. */
  lemma {:induction false} NoNewKeys(node: Json, defs: Defs, seen: seq<string>, key: string)
    requires Inlined(node, defs, seen).Some? && NoKey(node, key) && forall name :: name in defs ==> NoKey(defs[name], key)
    ensures NoKey(Inlined(node, defs, seen).value, key)
    decreases if |seen| <= MAX_REF_DEPTH then MAX_REF_DEPTH - |seen| else 0, node
  {
    match node
    case Obj(fields) =>
      if IsRef(node) { References(node, defs, seen); } else { PlainObjects(node, defs, seen); }
      hide Inlined;
      forall k | k in fields && Inlined(fields[k], defs, seen).Some? ensures NoKey(Inlined(fields[k], defs, seen).value, key) {
        NoNewKeys(fields[k], defs, seen, key);
      }
      if IsRef(node) {
        var name := NameOf(defs, RefOf(node)).value;
        NoNewKeys(defs[name], defs, seen + [name], key);
      }
    case Arr(items) =>
      Arrays(node, defs, seen);
      hide Inlined;
      forall i | 0 <= i < |items| ensures NoKey(Inlined(node, defs, seen).value.items[i], key) {
        NoNewKeys(items[i], defs, seen, key);
      }
    case Str(_) =>
    case Scalar(_) =>
  }

  /** The promise fails at the root: a root that refers to a definition with a `$defs` of its own keeps it. */
  lemma ReferredDefsStay()
    ensures var inner := Obj(map["$defs" := Scalar("1")]);
            var schema := map["$ref" := Str("#/$defs/A"), "$defs" := Obj(map["A" := inner])];
            OutputSchema(schema) == Some(inner)
  {
    var inner := Obj(map["$defs" := Scalar("1")]);
    var schema := map["$ref" := Str("#/$defs/A"), "$defs" := Obj(map["A" := inner])];
    var root, defs := Obj(schema - {"$defs"}), DefsOf(schema);
    NameOfPrefixed(defs, "A");
    assert PREFIX + "A" == "#/$defs/A";
    References(root, defs, []);
    RefFreeIsFixed(inner, defs, [] + ["A"]);
    hide Inlined;
    assert root.fields.Keys == {"$ref"};
    assert Inlined(root, defs, []).value.fields == inner.fields;
  }

  /** It fails below the root too: a nested `$defs` is an ordinary key. */
  lemma NestedDefsStay()
    ensures var schema := map["items" := Obj(map["$defs" := Scalar("1")])];
            OutputSchema(schema) == Some(Obj(schema))
  {
    var schema := map["items" := Obj(map["$defs" := Scalar("1")])];
    assert schema - {"$defs"} == schema;
    RefFreeIsFixed(Obj(schema), DefsOf(schema), []);
  }

  // ----- chains of references -----

  /** The text `ref` occurs as a reference in the node. */
  ghost predicate HasRef(node: Json, ref: string) {
    match node
    case Obj(fields) => (IsRef(node) && RefOf(node) == ref) || exists k :: k in fields && HasRef(fields[k], ref)
    case Arr(items) => exists i :: 0 <= i < |items| && HasRef(items[i], ref)
    case Str(_) => false
    case Scalar(_) => false
  }

  /** The reference names a definition, and that is an object to merge keys into. */
  predicate Fine(defs: Defs, ref: string) {
    var name := NameOf(defs, ref);
    name.Some? && defs[name.value].Obj?
  }

  function Def(defs: Defs, ref: string): Json requires Fine(defs, ref) { defs[NameOf(defs, ref).value] }

  /** References that lead from one to the next: the first occurs in the node, each other in the definition the one
      before it names. */
  ghost predicate Chain(node: Json, defs: Defs, refs: seq<string>)
    decreases |refs|
  {
    refs != [] ==>
      && HasRef(node, refs[0])
      && (|refs| > 1 ==> Fine(defs, refs[0]) && Chain(Def(defs, refs[0]), defs, refs[1..]))
  }

  predicate Dangles(defs: Defs, refs: seq<string>) { refs != [] && !Fine(defs, refs[|refs| - 1]) }

  predicate Cyclic(refs: seq<string>) { exists i, j :: 0 <= i < j < |refs| && refs[i] == refs[j] }

  /** All chains from the node end well within `depth` references. */
  ghost predicate Safe(node: Json, defs: Defs, depth: nat)
    decreases depth
  {
    forall ref :: HasRef(node, ref) ==> Fine(defs, ref) && depth > 0 && Safe(Def(defs, ref), defs, depth - 1)
  }

  lemma {:induction false} WalkChain(node: Json, defs: Defs, depth: nat, refs: seq<string>)
    requires Safe(node, defs, depth) && Chain(node, defs, refs) && refs != []
    ensures |refs| <= depth && !Dangles(defs, refs)
    ensures Safe(Def(defs, refs[|refs| - 1]), defs, depth - |refs|)
    decreases |refs|
  {
    assert HasRef(node, refs[0]);
    if |refs| > 1 { WalkChain(Def(defs, refs[0]), defs, depth - 1, refs[1..]); }
  }

  /** Without safety some chain is too long or dangles. */
  lemma {:induction false} BadChain(node: Json, defs: Defs, depth: nat) returns (refs: seq<string>)
    requires !Safe(node, defs, depth)
    ensures Chain(node, defs, refs) && (|refs| > depth || Dangles(defs, refs))
    decreases depth
  {
    var ref :| HasRef(node, ref) && !(Fine(defs, ref) && depth > 0 && Safe(Def(defs, ref), defs, depth - 1));
    if Fine(defs, ref) && depth > 0 {
      var rest := BadChain(Def(defs, ref), defs, depth - 1);
      refs := [ref] + rest;
      assert refs[1..] == rest;
    } else {
      refs := [ref];
    }
  }

  lemma Slice(refs: seq<string>, i: nat, j: nat)
    requires 1 <= i <= j < |refs|
    ensures refs[i..j + 1] == refs[1..][i - 1..j]
  {
    var a, b, tail := refs[i..j + 1], refs[1..][i - 1..j], refs[1..];
    forall k | 0 <= k < |a| ensures a[k] == b[k] {
      assert b[k] == tail[i - 1 + k] == refs[i + k];
    }
  }

  lemma {:induction false} ChainParts(node: Json, defs: Defs, refs: seq<string>, i: nat, j: nat)
    requires Chain(node, defs, refs) && i <= j < |refs|
    ensures i > 0 ==> Fine(defs, refs[i - 1]) && Chain(Def(defs, refs[i - 1]), defs, refs[i..j + 1])
    ensures i == 0 ==> Chain(node, defs, refs[..j + 1])
    decreases |refs|
  {
    if j > 0 {
      if i == 0 {
        ChainParts(Def(defs, refs[0]), defs, refs[1..], 0, j - 1);
        assert refs[..j + 1][1..] == refs[1..][..j];
      } else if i == 1 {
        ChainParts(Def(defs, refs[0]), defs, refs[1..], 0, j - 1);
        Slice(refs, 1, j);
      } else {
        ChainParts(Def(defs, refs[0]), defs, refs[1..], i - 1, j - 1);
        Slice(refs, i, j);
      }
    }
  }

  /** A chain that comes back to where it began is never safe. */
  lemma {:induction false} LoopIsUnsafe(node: Json, defs: Defs, refs: seq<string>, depth: nat)
    requires Chain(node, defs, refs) && refs != [] && Fine(defs, refs[|refs| - 1])
    requires Def(defs, refs[|refs| - 1]) == node
    ensures !Safe(node, defs, depth)
    decreases depth
  {
    if Safe(node, defs, depth) {
      WalkChain(node, defs, depth, refs);
      LoopIsUnsafe(node, defs, refs, depth - |refs|);
    }
  }

  lemma CyclicIsUnsafe(node: Json, defs: Defs, refs: seq<string>, depth: nat)
    requires Chain(node, defs, refs) && Cyclic(refs)
    ensures !Safe(node, defs, depth)
  {
    hide Safe, Chain;
    var i, j :| 0 <= i < j < |refs| && refs[i] == refs[j];
    ChainParts(node, defs, refs, 0, i);
    ChainParts(node, defs, refs, i + 1, j);
    var loop := refs[i + 1..j + 1];
    assert loop[|loop| - 1] == refs[j];
    if Safe(node, defs, depth) {
      WalkChain(node, defs, depth, refs[..i + 1]);
      LoopIsUnsafe(Def(defs, refs[i]), defs, loop, depth - (i + 1));
    }
  }

  // ----- success is safety -----

  /** The definitions being expanded refer to one another in turn, and the node is part of the last. */
  ghost predicate Live(node: Json, defs: Defs, seen: seq<string>) {
    && |seen| <= MAX_REF_DEPTH
    && (forall i :: 0 <= i < |seen| ==> Fine(defs, PREFIX + seen[i]) && Def(defs, PREFIX + seen[i]) == defs[seen[i]])
    && (forall i :: 0 <= i < |seen| - 1 ==> HasRef(defs[seen[i]], PREFIX + seen[i + 1]))
    && (seen != [] ==> forall ref :: HasRef(node, ref) ==> HasRef(defs[seen[|seen| - 1]], ref))
  }

  lemma {:induction false} GoingRound(node: Json, defs: Defs, seen: seq<string>, i: nat, start: nat, depth: nat)
    requires Live(node, defs, seen) && i < |seen| && start < |seen|
    requires HasRef(node, PREFIX + seen[start])
    ensures !Safe(defs[seen[i]], defs, depth)
    decreases depth
  {
    if Safe(defs[seen[i]], defs, depth) {
      var next := if i + 1 < |seen| then i + 1 else start;
      assert HasRef(defs[seen[i]], PREFIX + seen[next]);
      GoingRound(node, defs, seen, next, start, depth - 1);
    }
  }

  /** A part of the node may refer to no more than the node. */
  lemma PartsAreSafe(node: Json, child: Json, defs: Defs, seen: seq<string>)
    requires Live(node, defs, seen) && forall ref :: HasRef(child, ref) ==> HasRef(node, ref)
    ensures Live(child, defs, seen)
    ensures Safe(node, defs, MAX_REF_DEPTH - |seen|) ==> Safe(child, defs, MAX_REF_DEPTH - |seen|)
  {}

  /** The definition a followed reference names is expanded one level deeper. */
  lemma TargetIsLive(node: Json, defs: Defs, seen: seq<string>)
    requires Live(node, defs, seen) && IsRef(node) && Followed(node, defs, seen) && Fine(defs, RefOf(node))
    ensures var name := NameOf(defs, RefOf(node)).value;
            Live(defs[name], defs, seen + [name]) && Def(defs, RefOf(node)) == defs[name]
  {
    var ref := RefOf(node);
    var name := NameOf(defs, ref).value;
    var more := seen + [name];
    assert HasRef(node, ref);
    forall i | 0 <= i < |more| ensures Fine(defs, PREFIX + more[i]) && Def(defs, PREFIX + more[i]) == defs[more[i]] {
      if i < |seen| { assert more[i] == seen[i]; }
    }
    forall i | 0 <= i < |more| - 1 ensures HasRef(defs[more[i]], PREFIX + more[i + 1]) {
      if i < |seen| - 1 { assert more[i] == seen[i] && more[i + 1] == seen[i + 1]; }
    }
  }

  /** A reference that cannot be followed is the end of a bad chain. */
  lemma StuckIsUnsafe(node: Json, defs: Defs, seen: seq<string>)
    requires Live(node, defs, seen) && IsRef(node)
    requires !Followed(node, defs, seen) || !Fine(defs, RefOf(node))
    ensures !Safe(node, defs, MAX_REF_DEPTH - |seen|)
  {
    var ref := RefOf(node);
    assert HasRef(node, ref);
    if Fine(defs, ref) && |seen| < MAX_REF_DEPTH {
      var name := NameOf(defs, ref).value;
      var i :| 0 <= i < |seen| && seen[i] == name;
      GoingRound(node, defs, seen, i, i, MAX_REF_DEPTH - |seen| - 1);
    }
  }

  /** Safety level by level, as inlining goes. */
  lemma SafeReference(node: Json, defs: Defs, depth: nat)
    requires IsRef(node) && Fine(defs, RefOf(node))
    ensures Safe(node, defs, depth) <==>
              && depth > 0 && Safe(Def(defs, RefOf(node)), defs, depth - 1)
              && forall k :: k in node.fields && k != "$ref" ==> Safe(node.fields[k], defs, depth)
  {
    var f := node.fields;
    assert HasRef(node, RefOf(node));
    if Safe(node, defs, depth) {
      forall k | k in f ensures Safe(f[k], defs, depth) {
        assert forall ref :: HasRef(f[k], ref) ==> HasRef(node, ref);
      }
    }
    if && depth > 0 && Safe(Def(defs, RefOf(node)), defs, depth - 1)
       && (forall k :: k in f && k != "$ref" ==> Safe(f[k], defs, depth)) {
      forall ref | HasRef(node, ref)
        ensures Fine(defs, ref) && Safe(Def(defs, ref), defs, depth - 1)
      {
        if ref != RefOf(node) {
          var k :| k in f && HasRef(f[k], ref);
          assert k != "$ref";
          assert Safe(f[k], defs, depth);
        }
      }
    }
  }

  lemma SafeObject(node: Json, defs: Defs, depth: nat)
    requires node.Obj? && !IsRef(node)
    ensures Safe(node, defs, depth) <==> forall k :: k in node.fields ==> Safe(node.fields[k], defs, depth)
  {
    var f := node.fields;
    if Safe(node, defs, depth) {
      forall k | k in f ensures Safe(f[k], defs, depth) {
        assert forall ref :: HasRef(f[k], ref) ==> HasRef(node, ref);
      }
    }
    if forall k :: k in f ==> Safe(f[k], defs, depth) {
      forall ref | HasRef(node, ref)
        ensures Fine(defs, ref) && depth > 0 && Safe(Def(defs, ref), defs, depth - 1)
      {
        var k :| k in f && HasRef(f[k], ref);
        assert Safe(f[k], defs, depth);
      }
    }
  }

  lemma SafeArray(node: Json, defs: Defs, depth: nat)
    requires node.Arr?
    ensures Safe(node, defs, depth) <==> forall i :: 0 <= i < |node.items| ==> Safe(node.items[i], defs, depth)
  {
    var s := node.items;
    if Safe(node, defs, depth) {
      forall i | 0 <= i < |s| ensures Safe(s[i], defs, depth) {
        assert forall ref :: HasRef(s[i], ref) ==> HasRef(node, ref);
      }
    }
    if forall i :: 0 <= i < |s| ==> Safe(s[i], defs, depth) {
      forall ref | HasRef(node, ref)
        ensures Fine(defs, ref) && depth > 0 && Safe(Def(defs, ref), defs, depth - 1)
      {
        var i :| 0 <= i < |s| && HasRef(s[i], ref);
        assert Safe(s[i], defs, depth);
      }
    }
  }

  /** Inside a live expansion, inlining succeeds exactly when every chain from the node ends well in time. */
  lemma {:induction false} InlinedExactlyWhenSafe(node: Json, defs: Defs, seen: seq<string>)
    requires Live(node, defs, seen)
    ensures Inlined(node, defs, seen).Some? <==> Safe(node, defs, MAX_REF_DEPTH - |seen|)
    decreases MAX_REF_DEPTH - |seen|, node
  {
    var depth := MAX_REF_DEPTH - |seen|;
    match node
    case Obj(fields) =>
      forall k | k in fields ensures Inlined(fields[k], defs, seen).Some? <==> Safe(fields[k], defs, depth) {
        hide Inlined, Safe;
        PartsAreSafe(node, fields[k], defs, seen);
        InlinedExactlyWhenSafe(fields[k], defs, seen);
      }
      hide Inlined, Safe, HasRef, Live;
      if IsRef(node) {
        RefExactlyWhenSafe(node, defs, seen);
      } else {
        PlainObjects(node, defs, seen);
        SafeObject(node, defs, depth);
      }
    case Arr(items) =>
      forall i | 0 <= i < |items| ensures Inlined(items[i], defs, seen).Some? <==> Safe(items[i], defs, depth) {
        hide Inlined, Safe;
        PartsAreSafe(node, items[i], defs, seen);
        InlinedExactlyWhenSafe(items[i], defs, seen);
      }
      hide Inlined, Safe, HasRef, Live;
      Arrays(node, defs, seen);
      SafeArray(node, defs, depth);
    case Str(_) =>
    case Scalar(_) =>
  }

  lemma {:induction false} RefExactlyWhenSafe(node: Json, defs: Defs, seen: seq<string>)
    requires Live(node, defs, seen) && IsRef(node)
    requires forall k :: k in node.fields ==>
               (Inlined(node.fields[k], defs, seen).Some? <==> Safe(node.fields[k], defs, MAX_REF_DEPTH - |seen|))
    ensures Inlined(node, defs, seen).Some? <==> Safe(node, defs, MAX_REF_DEPTH - |seen|)
    decreases MAX_REF_DEPTH - |seen|, node, 0
  {
    hide Inlined, Safe, HasRef, IsRef, RefOf, Def;
    References(node, defs, seen);
    if !Followed(node, defs, seen) {
      StuckIsUnsafe(node, defs, seen);
    } else {
      var name := NameOf(defs, RefOf(node)).value;
      if Inlined(defs[name], defs, seen + [name]).Some? { KindKept(defs[name], defs, seen + [name]); }
      if !Fine(defs, RefOf(node)) {
        StuckIsUnsafe(node, defs, seen);
      } else {
        TargetIsLive(node, defs, seen);
        InlinedExactlyWhenSafe(defs[name], defs, seen + [name]);
        SafeReference(node, defs, MAX_REF_DEPTH - |seen|);
      }
    }
  }

  /** Flattening fails exactly when some chain of references dangles, comes round to a reference it has been through,
      or is longer than the depth allowed. */
  lemma FailsExactlyOnABadChain(node: Json, defs: Defs)
    ensures Inlined(node, defs, []).None? <==>
              exists refs :: Chain(node, defs, refs) && (Dangles(defs, refs) || Cyclic(refs) || |refs| > 8)
  {
    InlinedExactlyWhenSafe(node, defs, []);
    hide Inlined, Safe, Chain;
    if Safe(node, defs, MAX_REF_DEPTH) {
      forall refs | Chain(node, defs, refs) ensures !Dangles(defs, refs) && !Cyclic(refs) && |refs| <= MAX_REF_DEPTH {
        if Cyclic(refs) { CyclicIsUnsafe(node, defs, refs, MAX_REF_DEPTH); }
        if refs != [] { WalkChain(node, defs, MAX_REF_DEPTH, refs); }
      }
    } else {
      var refs := BadChain(node, defs, MAX_REF_DEPTH);
      assert Chain(node, defs, refs);
    }
  }
}
