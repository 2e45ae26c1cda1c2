/** What the type parameters of a copy stand for, which copy a call goes to, and what
    reflection on them unfolds to. */
module TypeBindings {
  import opened Syntax
  import opened Generics
  import opened Expansion

  // ---- explicit type arguments ----

  /** What a type argument means where it is written: a type parameter of the surrounding
      copy is the type that copy is made for. */
  function Meant(a: TypeArg, outer: Bindings): string {
    var n := match a case NamedType(name) => name case KindType(kind) => kind;
    if n in outer then outer[n] else n
  }

  function MeantAll(typeArgs: seq<TypeArg>, outer: Bindings): (r: seq<string>)
    ensures |r| == |typeArgs| && forall i | 0 <= i < |typeArgs| :: r[i] == Meant(typeArgs[i], outer)
  {
    seq(|typeArgs|, i requires 0 <= i < |typeArgs| => Meant(typeArgs[i], outer))
  }

  predicate AllDifferent(xs: seq<string>) {
    forall i, j | 0 <= i < j < |xs| :: xs[i] != xs[j]
  }

  lemma {:induction false} ExplicitAt(params: seq<string>, args: seq<TypeArg>, outer: Bindings, i: nat)
    requires |params| == |args| && i < |params| && params[i] !in params[i + 1..]
    ensures params[i] in Explicit(params, args, outer)
      && Explicit(params, args, outer)[params[i]] == Meant(args[i], outer)
    decreases |params|
  {
    var k := |params| - 1;
    if i < k {
      assert params[..k][i + 1..] <= params[i + 1..] && params[k] in params[i + 1..];
      ExplicitAt(params[..k], args[..k], outer, i);
    }
  }

  /** An explicit call needs as many type arguments as there are parameters, and then binds
      parameter `i` to what argument `i` means. */
  lemma ExplicitBinds(p: Source, t: Template, typeArgs: seq<TypeArg>, args: seq<Node>, outer: Bindings,
      field: Option<Field>)
    requires typeArgs != [] && AllDifferent(t.typeParams)
    ensures
      var r := Bind(p, t, typeArgs, args, outer, field);
      && (r.Some? <==> |typeArgs| == |t.typeParams|)
      && (r.Some? ==> r.value.Keys == (set x | x in t.typeParams))
      && (r.Some? ==> forall i {:trigger typeArgs[i]} | 0 <= i < |typeArgs| ::
            t.typeParams[i] in r.value && r.value[t.typeParams[i]] == Meant(typeArgs[i], outer))
  {
    if |typeArgs| == |t.typeParams| {
      forall i | 0 <= i < |typeArgs|
        ensures t.typeParams[i] in Explicit(t.typeParams, typeArgs, outer)
        ensures Explicit(t.typeParams, typeArgs, outer)[t.typeParams[i]] == Meant(typeArgs[i], outer)
      {
        ExplicitAt(t.typeParams, typeArgs, outer, i);
      }
    }
  }

  // ---- inferred ones ----

  /** The static type of an expression, where it has one: a local's type, or the object that
      is constructed. */
  predicate HasType(p: Source, e: Node, c: string) {
    || (e.Name? && e.name in p.locals && p.locals[e.name] == c)
    || (e.Apply? && e.callee in p.objects && e.callee == c)
  }

  /** Argument `k` is declared with type parameter `x`, and is of type `c`. */
  predicate Says(p: Source, t: Template, args: seq<Node>, k: int, x: string, c: string) {
    0 <= k < |args| && k < |t.params| && t.params[k].typ == NamedType(x) && x in t.typeParams && HasType(p, args[k], c)
  }

  /** Some argument says what the parameter is. */
  ghost predicate Spoken(p: Source, t: Template, args: seq<Node>, x: string) {
    exists k, c :: Says(p, t, args, k, x, c)
  }

  /** No two arguments say different types for one parameter. */
  ghost predicate Agreed(p: Source, t: Template, args: seq<Node>) {
    forall k, l, x, c, d | Says(p, t, args, k, x, c) && Says(p, t, args, l, x, d) :: c == d
  }

  /** The bindings are what the arguments say. */
  ghost predicate Reads(p: Source, t: Template, args: seq<Node>, bind: Bindings) {
    && (forall k, x, c | Says(p, t, args, k, x, c) :: x in bind && bind[x] == c)
    && (forall x | x in bind :: exists k :: Says(p, t, args, k, x, bind[x]))
  }

  lemma SaysStill(p: Source, t: Template, args: seq<Node>, n: nat, k: int, x: string, c: string)
    requires n <= |args|
    ensures Says(p, t, args[..n], k, x, c) <==> k < n && Says(p, t, args, k, x, c)
  {
  }

  lemma LastSays(p: Source, t: Template, args: seq<Node>, x: string, c: string)
    requires 0 < |args| <= |t.params|
    ensures Says(p, t, args, |args| - 1, x, c)
      <==> t.params[|args| - 1].typ == NamedType(x) && x in t.typeParams && TypeOf(p, args[|args| - 1]) == Some(c)
  {
  }

  /** Inference reads all arguments, or finds two that disagree. */
  lemma {:induction false} InferredReads(p: Source, t: Template, args: seq<Node>)
    returns (k: int, l: int, x: string, c: string, d: string)
    requires |args| <= |t.params|
    ensures var r := Inferred(p, t, args); r.Some? ==> Reads(p, t, args, r.value)
    ensures Inferred(p, t, args).None? ==> Says(p, t, args, k, x, c) && Says(p, t, args, l, x, d) && c != d
    decreases |args|
  {
    k, l, x, c, d := 0, 0, "", "", "";
    if args != [] {
      var n := |args| - 1;
      k, l, x, c, d := InferredReads(p, t, args[..n]);
      var before, now, ptype := Inferred(p, t, args[..n]), Inferred(p, t, args), t.params[n].typ;
      if before.None? {
        SaysStill(p, t, args, n, k, x, c);
        SaysStill(p, t, args, n, l, x, d);
      } else if now.None? {
        x := ptype.name;
        c, d := TypeOf(p, args[n]).value, before.value[x];
        l :| Says(p, t, args[..n], l, x, d);
        SaysStill(p, t, args, n, l, x, d);
        k := n;
        LastSays(p, t, args, x, c);
      } else {
        ReadOn(p, t, args, before.value, now.value);
      }
    }
  }

  lemma ReadOn(p: Source, t: Template, args: seq<Node>, before: Bindings, now: Bindings)
    requires 0 < |args| <= |t.params| && Reads(p, t, args[..|args| - 1], before)
    requires
      var n := |args| - 1;
      var ptype, c := t.params[n].typ, TypeOf(p, args[n]);
      if ptype.NamedType? && ptype.name in t.typeParams && c.Some?
      then now == before[ptype.name := c.value] && (ptype.name in before ==> before[ptype.name] == c.value)
      else now == before
    ensures Reads(p, t, args, now)
  {
    hide HasType, TypeOf;
    var n := |args| - 1;
    forall k, x, c | Says(p, t, args, k, x, c)
      ensures x in now && now[x] == c
    {
      SaysStill(p, t, args, n, k, x, c);
      LastSays(p, t, args, x, c);
      if k < n {
        assert Says(p, t, args[..n], k, x, c);
      }
    }
    forall x | x in now
      ensures exists k :: Says(p, t, args, k, x, now[x])
    {
      LastSays(p, t, args, x, now[x]);
      if x in before && now[x] == before[x] {
        var k :| Says(p, t, args[..n], k, x, before[x]);
        SaysStill(p, t, args, n, k, x, before[x]);
      }
    }
  }

  lemma ReadsAgreed(p: Source, t: Template, args: seq<Node>, bind: Bindings)
    requires Reads(p, t, args, bind)
    ensures Agreed(p, t, args)
  {
    hide Says;
    forall k, l, x, c, d | Says(p, t, args, k, x, c) && Says(p, t, args, l, x, d)
      ensures c == d
    {
      assert bind[x] == c && bind[x] == d;
    }
  }

  /** The object field that is current gives the type parameter that is returned. */
  predicate FieldSays(t: Template, field: Option<Field>, x: string) {
    field.Some? && field.value.kind == "object" && t.ret == NamedType(x)
  }

  /** A call without type arguments is bound exactly if it has as many arguments as there are
      parameters, they agree, and each type parameter has an argument of known type or is the
      result type while an object field is current. Each stands for the type of every
      argument declared with it, and only without one for that of the field. */
  lemma InferredBinds(p: Source, t: Template, args: seq<Node>, outer: Bindings, field: Option<Field>)
    ensures
      var r := Bind(p, t, [], args, outer, field);
      && (r.Some? <==>
            && |args| == |t.params| && Agreed(p, t, args)
            && forall x | x in t.typeParams :: Spoken(p, t, args, x) || FieldSays(t, field, x))
      && (r.Some? ==> r.value.Keys == (set x | x in t.typeParams))
      && (r.Some? ==> forall k, x, c | Says(p, t, args, k, x, c) :: x in r.value && r.value[x] == c)
      && (r.Some? ==> forall x | x in t.typeParams && !Spoken(p, t, args, x) ::
            field.Some? && x in r.value && r.value[x] == field.value.typeName)
  {
    hide Says;
    if |args| == |t.params| {
      var k, l, y, c, d := InferredReads(p, t, args);
      var bind := Inferred(p, t, args);
      if bind.Some? {
        ReadsAgreed(p, t, args, bind.value);
        InferredParams(p, t, args, bind.value);
        forall x
          ensures x in bind.value <==> Spoken(p, t, args, x)
        {
          if x in bind.value {
            var k :| Says(p, t, args, k, x, bind.value[x]);
          }
        }
      }
    }
  }

  lemma InferredParams(p: Source, t: Template, args: seq<Node>, bind: Bindings)
    requires Reads(p, t, args, bind)
    ensures forall x | x in bind :: x in t.typeParams
  {
    forall x | x in bind
      ensures x in t.typeParams
    {
      var k :| Says(p, t, args, k, x, bind[x]);
    }
  }
  // ---- which copy ----

  /** The name of a copy, read from the left. */
  function Spelled(name: string, types: seq<string>): string
    decreases |types|
  {
    if types == [] then name else Spelled(name + "__" + types[0], types[1..])
  }

  lemma {:induction false} SpelledSnoc(name: string, types: seq<string>, last: string)
    ensures Spelled(name, types + [last]) == Spelled(name, types) + "__" + last
    decreases |types|
  {
    if types == [] {
      assert (types + [last])[1..] == [];
      assert Spelled(name + "__" + last, []) == name + "__" + last;
    } else {
      assert (types + [last])[0] == types[0] && (types + [last])[1..] == types[1..] + [last];
      SpelledSnoc(name + "__" + types[0], types[1..], last);
    }
  }

  lemma {:induction false} MangleSpelled(name: string, types: seq<string>)
    ensures Mangle(name, types) == Spelled(name, types)
    decreases |types|
  {
    if types != [] {
      var n := |types| - 1;
      MangleSpelled(name, types[..n]);
      SpelledSnoc(name, types[..n], types[n]);
      assert types == types[..n] + [types[n]];
    }
  }

  /** `f<int, string>()` goes to `f__int__string`: the copy of an explicit call is named after
      what its type arguments mean, from the left. */
  lemma ExplicitCopy(p: Source, name: string, typeArgs: seq<TypeArg>, args: seq<Node>, outer: Bindings,
      field: Option<Field>)
    requires name in p.generics && typeArgs != [] && AllDifferent(p.generics[name].typeParams)
    ensures CopyName(p, name, typeArgs, args, outer, field)
         == if |typeArgs| == |p.generics[name].typeParams| then Some(Spelled(name, MeantAll(typeArgs, outer))) else None
  {
    hide Bind, Mangle, Spelled;
    var t := p.generics[name];
    ExplicitBinds(p, t, typeArgs, args, outer, field);
    if |typeArgs| == |t.typeParams| {
      var types := Chosen(t.typeParams, Bind(p, t, typeArgs, args, outer, field).value);
      assert types == MeantAll(typeArgs, outer);
      MangleSpelled(name, types);
    }
  }

  /** The copy of a call without type arguments is named after the types its arguments say,
      and for a parameter they do not speak of after that of the field. */
  lemma InferredCopy(p: Source, name: string, args: seq<Node>, outer: Bindings, field: Option<Field>)
    returns (types: seq<string>)
    requires name in p.generics && CopyName(p, name, [], args, outer, field).Some?
    ensures
      var t := p.generics[name];
      && CopyName(p, name, [], args, outer, field) == Some(Spelled(name, types)) && |types| == |t.typeParams|
      && (forall i, k, c | 0 <= i < |types| && Says(p, t, args, k, t.typeParams[i], c) :: types[i] == c)
      && forall i | 0 <= i < |types| && !Spoken(p, t, args, t.typeParams[i]) ::
           field.Some? && types[i] == field.value.typeName
  {
    hide Bind, Mangle, Spelled, Says;
    var t := p.generics[name];
    InferredBinds(p, t, args, outer, field);
    types := Chosen(t.typeParams, Bind(p, t, [], args, outer, field).value);
    MangleSpelled(name, types);
  }

  /** An explicit call, in an ordinary function or in a copy, becomes a call of that copy. */
  lemma ExplicitCallGoes(p: Source, name: string, typeArgs: seq<TypeArg>, args: seq<Node>, at: Place)
    requires name in p.generics && typeArgs != [] && AllDifferent(p.generics[name].typeParams)
    requires |typeArgs| == |p.generics[name].typeParams|
    ensures NodesLowered(p, args, at).Some? ==>
      NodeLowered(p, Node.Apply(name, typeArgs, args), at)
        == Some(Node.Apply(Spelled(name, MeantAll(typeArgs, at.outer)), [], NodesLowered(p, args, at).value))
    ensures NodesRewritten(p, args).Some? ==>
      NodeRewritten(p, Node.Apply(name, typeArgs, args))
        == Some(Node.Apply(Spelled(name, MeantAll(typeArgs, map[])), [], NodesRewritten(p, args).value))
  {
    hide CopyName, Spelled;
    if NodesLowered(p, args, at).Some? {
      ExplicitCopy(p, name, typeArgs, NodesLowered(p, args, at).value, at.outer, at.field);
    }
    if NodesRewritten(p, args).Some? {
      ExplicitCopy(p, name, typeArgs, NodesRewritten(p, args).value, map[], None);
    }
  }

  // ---- reflection ----

  /** In a copy, a type parameter is the type it stands for. */
  lemma {:induction false} SeededTypes(bind: Bindings, params: seq<Param>, x: string)
    requires x in bind
    ensures x in Seeded(bind, params) && Seeded(bind, params)[x] == TypeName(bind[x])
    decreases |params|
  {
    if params != [] {
      SeededTypes(bind, params[..|params| - 1], x);
    }
  }

  lemma {:induction false} SeededNames(bind: Bindings, params: seq<Param>, x: string)
    ensures x in Seeded(bind, params) <==> x in bind || exists i :: 0 <= i < |params| && params[i].name == x
    decreases |params|
  {
    if params != [] {
      var n := |params| - 1;
      SeededNames(bind, params[..n], x);
      assert forall i | 0 <= i < n :: params[..n][i] == params[i];
      if i :| 0 <= i < |params| && params[i].name == x {
        assert i < n ==> params[..n][i].name == x;
      }
    }
  }

  /** A parameter of the function that has no such name is of the type it is declared with,
      type parameters replaced; the first of two of one name counts. */
  lemma {:induction false} SeededParams(bind: Bindings, params: seq<Param>, i: nat)
    requires i < |params| && params[i].name !in bind && forall j | 0 <= j < i :: params[j].name != params[i].name
    ensures
      var env, typ := Seeded(bind, params), params[i].typ;
      params[i].name in env && env[params[i].name]
        == TypeName(match typ case NamedType(n) => if n in bind then bind[n] else n case KindType(k) => k)
    decreases |params|
  {
    var n := |params| - 1;
    if i < n {
      SeededParams(bind, params[..n], i);
    } else {
      SeededNames(bind, params[..n], params[i].name);
    }
  }

  /** What reflects a type, a local or an object is the object of that name. */
  lemma ReflectMeans(p: Source, target: string, arg: string, at: Place)
    ensures
      var (r, env) := LineLowered(p, Reflect(target, arg), at);
      var named := if arg in at.env && at.env[arg].TypeName? then Some(at.env[arg].name)
                   else if arg in p.locals then Some(p.locals[arg]) else if arg in p.objects then Some(arg) else None;
      && (r == Some([]) <==> named.Some?) && (r.None? <==> named.None?)
      && env == if named.Some? then at.env[target := Artifact(named.value)] else at.env
  {
  }

  /** Lists put one behind the other. */
  function Flat(parts: seq<seq<Line>>): seq<Line> {
    if parts == [] then [] else parts[0] + Flat(parts[1..])
  }

  lemma {:induction false} FlatSnoc(parts: seq<seq<Line>>, last: seq<Line>)
    ensures Flat(parts + [last]) == Flat(parts) + last
  {
    if parts == [] {
      assert (parts + [last])[1..] == [] && last + [] == last && [] + last == last;
    } else {
      FlatSnoc(parts[1..], last);
      assert (parts + [last])[0] == parts[0] && (parts + [last])[1..] == parts[1..] + [last];
      assert parts[0] + (Flat(parts[1..]) + last) == parts[0] + Flat(parts[1..]) + last;
    }
  }

  /** What the body becomes for field `f`. */
  function ForField(p: Source, item: string, body: seq<Line>, at: Place, f: Field): Option<seq<Line>> {
    BlockLowered(p, body, Place(at.env[item := FieldItem(f)], at.outer, Some(f)))
  }

  /** A loop over the members of an object becomes its body once for each field, in the order
      in which they are declared, each time with that field. */
  lemma ForEachUnfolds(p: Source, item: string, coll: string, body: seq<Line>, at: Place, parts: seq<seq<Line>>)
    requires coll in at.env && at.env[coll].FieldList? && at.env[coll].name in p.objects
    requires |parts| == |p.objects[at.env[coll].name]|
    requires forall i | 0 <= i < |parts| ::
      ForField(p, item, body, at, p.objects[at.env[coll].name][i]) == Some(parts[i])
    ensures LineLowered(p, ForEach(item, coll, body), at) == (Some(Flat(parts)), at.env)
  {
    var fields := p.objects[at.env[coll].name];
    EachUnfolds(p, fields, item, body, at, parts);
  }

  lemma {:induction false} EachUnfolds(p: Source, fields: seq<Field>, item: string, body: seq<Line>, at: Place,
      parts: seq<seq<Line>>)
    requires |parts| == |fields| && forall i | 0 <= i < |parts| ::
      ForField(p, item, body, at, fields[i]) == Some(parts[i])
    ensures EachLowered(p, fields, item, body, at) == Some(Flat(parts))
    decreases |fields|
  {
    hide BlockLowered;
    if fields != [] {
      var k := |fields| - 1;
      EachUnfolds(p, fields[..k], item, body, at, parts[..k]);
      FlatSnoc(parts[..k], parts[k]);
      assert parts == parts[..k] + [parts[k]];
      assert ForField(p, item, body, at, fields[k]) == Some(parts[k]);
    }
  }

  /** `item.name` and `item.type_name` are those of the field, every other member stays. */
  lemma FieldMembers(p: Source, item: string, member: string, at: Place)
    requires item in at.env && at.env[item].FieldItem?
    ensures
      var r, f := NodeLowered(p, FieldOf(item, member), at), at.env[item].field;
      && (member == "name" ==> r == Some(Quoted(f.name))) && (member == "type_name" ==> r == Some(Quoted(f.typeName)))
      && (member != "name" && member != "type_name" ==> r == Some(FieldOf(item, member)))
  {
  }

  /** A match over kinds becomes the first arm for the kind of the field, else the last
      default arm, else nothing. */
  lemma ArmTaken(arms: seq<Arm>, kind: string, i: nat)
    requires i < |arms|
    ensures !arms[i].isDefault && arms[i].kind == kind
      && (forall j | 0 <= j < i :: arms[j].isDefault || arms[j].kind != kind)
      ==> ArmFor(arms, kind, None) == Some(arms[i].body)
    ensures arms[i].isDefault && (forall j | i < j < |arms| :: !arms[j].isDefault)
      && (forall j | 0 <= j < |arms| :: arms[j].isDefault || arms[j].kind != kind)
      ==> ArmFor(arms, kind, None) == Some(arms[i].body)
    ensures (forall j | 0 <= j < |arms| :: !arms[j].isDefault && arms[j].kind != kind)
      ==> ArmFor(arms, kind, None) == None
  {
    if !arms[i].isDefault && arms[i].kind == kind && forall j | 0 <= j < i ::
      arms[j].isDefault || arms[j].kind != kind {
      ArmFirst(arms, kind, None, i);
    }
    if forall j | 0 <= j < |arms| :: arms[j].isDefault || arms[j].kind != kind {
      if arms[i].isDefault && forall j | i < j < |arms| :: !arms[j].isDefault {
        ArmDefault(arms, kind, None, i);
      }
      if forall j | 0 <= j < |arms| :: !arms[j].isDefault {
        ArmNone(arms, kind, None);
      }
    }
  }

  lemma {:induction false} ArmFirst(arms: seq<Arm>, kind: string, fallback: Option<Node>, i: nat)
    requires i < |arms| && !arms[i].isDefault && arms[i].kind == kind
    requires forall j | 0 <= j < i :: arms[j].isDefault || arms[j].kind != kind
    ensures ArmFor(arms, kind, fallback) == Some(arms[i].body)
    decreases |arms|
  {
    if i > 0 {
      ArmFirst(arms[1..], kind, if arms[0].isDefault then Some(arms[0].body) else fallback, i - 1);
    }
  }

  lemma {:induction false} ArmNone(arms: seq<Arm>, kind: string, fallback: Option<Node>)
    requires forall j | 0 <= j < |arms| :: !arms[j].isDefault && arms[j].kind != kind
    ensures ArmFor(arms, kind, fallback) == fallback
    decreases |arms|
  {
    if arms != [] {
      ArmNone(arms[1..], kind, fallback);
    }
  }

  lemma {:induction false} ArmDefault(arms: seq<Arm>, kind: string, fallback: Option<Node>, i: nat)
    requires i < |arms| && arms[i].isDefault && forall j | i < j < |arms| :: !arms[j].isDefault
    requires forall j | 0 <= j < |arms| :: arms[j].isDefault || arms[j].kind != kind
    ensures ArmFor(arms, kind, fallback) == Some(arms[i].body)
    decreases |arms|
  {
    if i > 0 {
      ArmDefault(arms[1..], kind, if arms[0].isDefault then Some(arms[0].body) else fallback, i - 1);
    } else {
      ArmNone(arms[1..], kind, Some(arms[0].body));
    }
  }
}
