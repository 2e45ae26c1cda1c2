/** Generic functions are expanded before compilation: every call of one is bound to
    concrete type names and redirected to a copy made for that binding. */
module Generics {
  import opened Syntax

  /** A type argument. Only named types keep their name; all others shrink to their kind. */
  datatype TypeArg = NamedType(name: string) | KindType(kind: string)

  function NameOf(t: TypeArg): string {
    match t case NamedType(n) => n case KindType(k) => k
  }

  /** Expressions as far as the expander looks at them. `Parts` is any other expression;
      `seen` says whether the rewriting of ordinary functions looks inside it, which it does
      for unary, binary and member expressions only. */
  datatype Node =
    | Name(name: string)
    | Apply(callee: string, typeArgs: seq<TypeArg>, args: seq<Node>)
    | Parts(seen: bool, parts: seq<Node>)
    | FieldOf(base: string, member: string)
    | Quoted(text: string)

  /** `Do` is any statement that stays: its expressions and blocks in order. The others are
      run at compile time. */
  datatype Line =
    | Do(seen: bool, pieces: seq<Piece>)
    | Reflect(target: string, arg: string)
    | ListMembers(target: string, arg: string)
    | ForEach(item: string, coll: string, body: seq<Line>)
    | ByKind(scrutinee: string, arms: seq<Arm>)

  datatype Piece = Expression(e: Node) | Nested(body: seq<Line>)

  datatype Arm = Arm(kind: string, isDefault: bool, body: Node)

  datatype Param = Param(name: string, typ: TypeArg)

  datatype Template = Template(typeParams: seq<string>, params: seq<Param>, ret: TypeArg, body: seq<Line>)

  datatype Field = Field(name: string, kind: string, typeName: string)

  datatype Source = Source(generics: map<string, Template>, objects: map<string, seq<Field>>,
      locals: map<string, string>)

  /** Compile-time values: a type, a reflected object, its field list, one of its fields. */
  datatype Known = TypeName(name: string) | Artifact(name: string) | FieldList(name: string) | FieldItem(field: Field)

  /** What a program consists of besides templates, in order. */
  datatype Unit = Ordinary(body: seq<Line>) | TopLevel(line: Line)

  /** The program after expansion; the copies come last. */
  datatype Expanded = Expanded(functions: seq<seq<Line>>, top: seq<Line>, copies: seq<Instance>)

  type Env = map<string, Known>

  type Bindings = map<string, string>

  /** A call that is met: which template, what its type parameters stand for, and which
      field of an object is current. */
  datatype Request = Request(name: string, bind: Bindings, field: Option<Field>)

  /** A copy of a template: the call it was first asked for by, and its lowered body. */
  datatype Instance = Instance(name: string, origin: Request, body: seq<Line>)

  // ---- names ----

  /** The name of the copy of `name` for some types. */
  function Mangle(name: string, types: seq<string>): string
    decreases |types|
  {
    if types == [] then name else Mangle(name, types[..|types| - 1]) + "__" + types[|types| - 1]
  }

  /** A name without two underscores in a row and not ending with one. */
  predicate Tail(name: string) {
    name != "" && name[|name| - 1] != '_' && forall i | 0 <= i < |name| - 1 :: name[i] != '_' || name[i + 1] != '_'
  }

  lemma MangledLast(x: string, t: string, y: string, u: string)
    requires x + "__" + t == y + "__" + u && |t| == |u|
    ensures x == y && t == u
  {
    var m := x + "__" + t;
    assert m[|y| + 2..] == u && m[|x| + 2..] == t && m[..|x|] == x && m[..|y|] == y;
  }

  /** Where the last name of one is longer, it holds the other's separator, or the other's
      front ends with an underscore. */
  lemma MangledLonger(x: string, t: string, y: string, u: string)
    requires x + "__" + t == y + "__" + u && |t| < |u| && x != ""
    ensures x[|x| - 1] == '_' || !Tail(u)
  {
    var m, k := x + "__" + t, |y| + 2;
    assert m[k..] == u && m[|x|] == '_' && m[|x| + 1] == '_';
    if |x| >= k {
      assert u[|x| - k] == m[|x|] && u[|x| + 1 - k] == m[|x| + 1];
    } else {
      assert (y + "__" + u)[|x| - 1] == '_' && m[|x| - 1] == x[|x| - 1];
    }
  }

  lemma MangledTwice(x: string, t: string, g: string)
    requires x + "__" + t == g
    ensures !Tail(g)
  {
    assert g[|x|] == '_' && g[|x| + 1] == '_';
  }

  lemma MangledEnd(g: string, ts: seq<string>)
    requires Tail(g) && forall t | t in ts :: Tail(t)
    ensures var m := Mangle(g, ts); m != "" && m[|m| - 1] != '_'
  {
    if ts != [] {
      assert ts[|ts| - 1] in ts;
    }
  }

  /** Copies of different templates, or for different types, have different names if all
      names are of this kind. */
  lemma {:induction false} MangleInjective(g: string, ts: seq<string>, h: string, us: seq<string>)
    requires Tail(g) && Tail(h) && (forall t | t in ts :: Tail(t)) && (forall u | u in us :: Tail(u))
    requires Mangle(g, ts) == Mangle(h, us)
    ensures g == h && ts == us
    decreases |ts|
  {
    hide Tail;
    if ts == [] || us == [] {
      if ts != [] {
        MangledTwice(Mangle(g, ts[..|ts| - 1]), ts[|ts| - 1], h);
      } else if us != [] {
        MangledTwice(Mangle(h, us[..|us| - 1]), us[|us| - 1], g);
      }
    } else {
      var i, j := |ts| - 1, |us| - 1;
      var t, u := ts[i], us[j];
      MangledEnd(g, ts[..i]);
      MangledEnd(h, us[..j]);
      if |t| < |u| {
        MangledLonger(Mangle(g, ts[..i]), t, Mangle(h, us[..j]), u);
      } else if |u| < |t| {
        MangledLonger(Mangle(h, us[..j]), u, Mangle(g, ts[..i]), t);
      }
      MangledLast(Mangle(g, ts[..i]), t, Mangle(h, us[..j]), u);
      MangleInjective(g, ts[..i], h, us[..j]);
      assert ts == ts[..i] + [t] && us == us[..j] + [u];
    }
  }

  /** Neither condition can be dropped, for templates or for types: a trailing underscore
      alone, or a doubled one alone, lets two calls share one copy, the first one's. */
  lemma MangleCollides()
    ensures Mangle("f_", ["A"]) == Mangle("f", ["_A"]) && Tail("f") && Tail("A") && Tail("_A") && !Tail("f_")
    ensures Mangle("f", ["A_", "B"]) == Mangle("f", ["A", "_B"]) && Tail("B") && Tail("_B") && !Tail("A_")
    ensures Mangle("f__A", ["B"]) == Mangle("f", ["A", "B"]) && !Tail("f__A")
    ensures Mangle("f", ["A__B"]) == Mangle("f", ["A", "B"]) && !Tail("A__B")
  {
    One("f", "A__B");
    Two("f", "A_", "B");
    Two("f", "A", "_B");
    assert "A__B"[1] == '_' && "A__B"[2] == '_';
    One("f", "_A");
    One("f_", "A");
    One("f__A", "B");
    Two("f", "A", "B");
    assert "f__A"[1] == '_' && "f__A"[2] == '_';
  }

  lemma One(g: string, t: string)
    ensures Mangle(g, [t]) == g + "__" + t
  {
    assert [t][..0] == [];
  }

  lemma Two(g: string, t: string, u: string)
    ensures Mangle(g, [t, u]) == g + "__" + t + "__" + u
  {
    One(g, t);
    assert [t, u][..1] == [t];
  }

  /** All lists of `k` names. */
  ghost function Tuples(names: set<string>, k: nat): (r: set<seq<string>>)
    ensures forall ts :: ts in r <==> |ts| == k && forall n | n in ts :: n in names
  {
    if k == 0 then {[]}
    else
      var shorter := Tuples(names, k - 1);
      var r := set ts, n | ts in shorter && n in names :: ts + [n];
      assert forall ts | |ts| == k && forall n | n in ts :: n in names ::
        ts == ts[..k - 1] + [ts[k - 1]] && ts[..k - 1] in shorter;
      r
  }

  /** Every name a copy can have, as long as types are called by `names`. */
  ghost function Universe(generics: map<string, Template>, names: set<string>): set<string> {
    set g, ts | g in generics && ts in Tuples(names, |generics[g].typeParams|) :: Mangle(g, ts)
  }

  lemma InUniverse(generics: map<string, Template>, names: set<string>, g: string, ts: seq<string>)
    requires g in generics && |ts| == |generics[g].typeParams| && forall n | n in ts :: n in names
    ensures Mangle(g, ts) in Universe(generics, names)
  {
    assert ts in Tuples(names, |generics[g].typeParams|);
  }

  // ---- the types a program mentions ----

  /** Everything a type parameter can be bound to in this expression is in `names`. */
  predicate NodeNamed(e: Node, names: set<string>)
    decreases e, 1
  {
    match e
    case Apply(_, ts, args) => (forall t | t in ts :: NameOf(t) in names) && NodesNamed(args, names)
    case Parts(_, ps) => NodesNamed(ps, names)
    case _ => true
  }

  predicate NodesNamed(es: seq<Node>, names: set<string>)
    decreases es, 0
  {
    es == [] || (NodeNamed(es[0], names) && NodesNamed(es[1..], names))
  }

  predicate LineNamed(s: Line, names: set<string>)
    decreases s, 2
  {
    match s
    case Do(_, ps) => PiecesNamed(ps, names)
    case ForEach(_, _, body) => LinesNamed(body, names)
    case ByKind(_, arms) => ArmsNamed(arms, names)
    case _ => true
  }

  predicate PiecesNamed(ps: seq<Piece>, names: set<string>)
    decreases ps, 1
  {
    ps == [] ||
    ((match ps[0] case Expression(e) => NodeNamed(e, names) case Nested(b) => LinesNamed(b, names))
      && PiecesNamed(ps[1..], names))
  }

  predicate ArmsNamed(arms: seq<Arm>, names: set<string>)
    decreases arms, 1
  {
    arms == [] || (NodeNamed(arms[0].body, names) && ArmsNamed(arms[1..], names))
  }

  predicate LinesNamed(ss: seq<Line>, names: set<string>)
    decreases ss, 0
  {
    ss == [] || (LineNamed(ss[0], names) && LinesNamed(ss[1..], names))
  }

  predicate FieldsNamed(fs: seq<Field>, names: set<string>) {
    forall f | f in fs :: f.typeName in names
  }

  predicate SourceNamed(p: Source, names: set<string>) {
    && (forall g | g in p.generics :: LinesNamed(p.generics[g].body, names))
    && (forall o | o in p.objects :: o in names && FieldsNamed(p.objects[o], names))
    && (forall x | x in p.locals :: p.locals[x] in names)
  }

  ghost predicate BindsTo(bind: Bindings, names: set<string>) {
    forall x | x in bind :: bind[x] in names
  }

  ghost predicate FieldOk(field: Option<Field>, names: set<string>) {
    field.Some? ==> field.value.typeName in names
  }

  /** The names a program mentions: there are finitely many. */
  ghost function NodeNames(e: Node): (r: set<string>)
    ensures forall names | r <= names :: NodeNamed(e, names)
    decreases e, 1
  {
    match e
    case Apply(_, ts, args) => (set t | t in ts :: NameOf(t)) + NodesNames(args)
    case Parts(_, ps) => NodesNames(ps)
    case _ => {}
  }

  ghost function NodesNames(es: seq<Node>): (r: set<string>)
    ensures forall names | r <= names :: NodesNamed(es, names)
    decreases es, 0
  {
    if es == [] then {} else NodeNames(es[0]) + NodesNames(es[1..])
  }

  ghost function LineNames(s: Line): (r: set<string>)
    ensures forall names | r <= names :: LineNamed(s, names)
    decreases s, 2
  {
    match s
    case Do(_, ps) => PiecesNames(ps)
    case ForEach(_, _, body) => LinesNames(body)
    case ByKind(_, arms) => ArmsNames(arms)
    case _ => {}
  }

  ghost function PiecesNames(ps: seq<Piece>): (r: set<string>)
    ensures forall names | r <= names :: PiecesNamed(ps, names)
    decreases ps, 1
  {
    if ps == [] then {}
    else (match ps[0] case Expression(e) => NodeNames(e) case Nested(b) => LinesNames(b)) + PiecesNames(ps[1..])
  }

  ghost function ArmsNames(arms: seq<Arm>): (r: set<string>)
    ensures forall names | r <= names :: ArmsNamed(arms, names)
    decreases arms, 1
  {
    if arms == [] then {} else NodeNames(arms[0].body) + ArmsNames(arms[1..])
  }

  ghost function LinesNames(ss: seq<Line>): (r: set<string>)
    ensures forall names | r <= names :: LinesNamed(ss, names)
    decreases ss, 0
  {
    if ss == [] then {} else LineNames(ss[0]) + LinesNames(ss[1..])
  }

  ghost function BodyNames(p: Source): (r: set<string>)
    ensures forall g | g in p.generics :: LinesNames(p.generics[g].body) <= r
  {
    set g, n | g in p.generics && n in LinesNames(p.generics[g].body) :: n
  }

  ghost function ObjectNames(p: Source): (r: set<string>)
    ensures forall o | o in p.objects :: o in r && FieldsNamed(p.objects[o], r)
  {
    p.objects.Keys + set o, f | o in p.objects && f in p.objects[o] :: f.typeName
  }

  ghost function SourceNames(p: Source): set<string> {
    BodyNames(p) + ObjectNames(p) + p.locals.Values
  }

  /** Every program is named by finitely many names. */
  lemma SourceIsNamed(p: Source, names: set<string>)
    requires SourceNames(p) <= names
    ensures SourceNamed(p, names)
  {
    hide LinesNames, LinesNamed;
    forall g | g in p.generics
      ensures LinesNamed(p.generics[g].body, names)
    {
      assert LinesNames(p.generics[g].body) <= names;
    }
    forall o | o in p.objects
      ensures o in names && FieldsNamed(p.objects[o], names)
    {
      assert FieldsNamed(p.objects[o], ObjectNames(p));
    }
  }

  predicate UnitsNamed(us: seq<Unit>, names: set<string>) {
    us == [] ||
    ((match us[0] case Ordinary(b) => LinesNamed(b, names) case TopLevel(l) => LineNamed(l, names))
      && UnitsNamed(us[1..], names))
  }

  ghost function UnitsNames(us: seq<Unit>): (r: set<string>)
    ensures forall names | r <= names :: UnitsNamed(us, names)
  {
    if us == [] then {}
    else (match us[0] case Ordinary(b) => LinesNames(b) case TopLevel(l) => LineNames(l)) + UnitsNames(us[1..])
  }

  // ---- binding ----

  /** Explicit type arguments; a name the surrounding copy binds stands for its type. */
  function Explicit(params: seq<string>, args: seq<TypeArg>, outer: Bindings): (r: Bindings)
    requires |params| == |args|
    ensures r.Keys == (set p | p in params)
    decreases |params|
  {
    if params == [] then map[]
    else
      var k := |params| - 1;
      var c := NameOf(args[k]);
      Explicit(params[..k], args[..k], outer)[params[k] := if c in outer then outer[c] else c]
  }

  lemma {:induction false} ExplicitNamed(params: seq<string>, args: seq<TypeArg>, outer: Bindings, names: set<string>)
    requires |params| == |args| && BindsTo(outer, names) && forall t | t in args :: NameOf(t) in names
    ensures BindsTo(Explicit(params, args, outer), names)
    decreases |params|
  {
    if params != [] {
      var k := |params| - 1;
      ExplicitNamed(params[..k], args[..k], outer, names);
      assert args[k] in args;
    }
  }

  /** The static type of an argument, if it is a local with a known type or a constructor call. */
  function TypeOf(p: Source, e: Node): Option<string> {
    match e
    case Name(x) => if x in p.locals then Some(p.locals[x]) else None
    case Apply(c, _, _) => if c in p.objects then Some(c) else None
    case _ => None
  }

  /** Bindings read off the arguments, or none if two of them conflict. */
  function Inferred(p: Source, t: Template, args: seq<Node>): Option<Bindings>
    requires |args| <= |t.params|
    decreases |args|
  {
    if args == [] then Some(map[])
    else
      var k := |args| - 1;
      match Inferred(p, t, args[..k])
      case None => None
      case Some(bind) =>
        var ptype := t.params[k].typ;
        if !ptype.NamedType? || ptype.name !in t.typeParams then Some(bind)
        else
          match TypeOf(p, args[k])
          case None => Some(bind)
          case Some(c) =>
            if ptype.name in bind && bind[ptype.name] != c then None else Some(bind[ptype.name := c])
  }

  lemma {:induction false} InferredNamed(p: Source, t: Template, args: seq<Node>, names: set<string>)
    requires |args| <= |t.params| && SourceNamed(p, names) && Inferred(p, t, args).Some?
    ensures BindsTo(Inferred(p, t, args).value, names)
    decreases |args|
  {
    if args != [] {
      InferredNamed(p, t, args[..|args| - 1], names);
    }
  }

  /** Inside a loop over object fields, a type parameter that is only the result type is the
      type of the current field. */
  function FromField(t: Template, bind: Bindings, field: Option<Field>): Bindings {
    if field.Some? && field.value.kind == "object" && t.ret.NamedType? && t.ret.name in t.typeParams
      && t.ret.name !in bind
    then bind[t.ret.name := field.value.typeName] else bind
  }

  /** What the type parameters of a call stand for, or none if that cannot be told. */
  function Bind(p: Source, t: Template, typeArgs: seq<TypeArg>, args: seq<Node>, outer: Bindings,
      field: Option<Field>): (r: Option<Bindings>)
    ensures r.Some? ==> forall x | x in t.typeParams :: x in r.value
  {
    if typeArgs != [] then
      if |typeArgs| != |t.typeParams| then None else Some(Explicit(t.typeParams, typeArgs, outer))
    else if |args| != |t.params| then None
    else
      match Inferred(p, t, args)
      case None => None
      case Some(bind) =>
        var full := FromField(t, bind, field);
        if forall x | x in t.typeParams :: x in full then Some(full) else None
  }

  /** Type parameters are only ever bound to names the program already has: this is why the
      expansion ends, however its functions call each other. */
  lemma BindNamed(p: Source, t: Template, typeArgs: seq<TypeArg>, args: seq<Node>, outer: Bindings,
      field: Option<Field>, names: set<string>)
    requires SourceNamed(p, names) && BindsTo(outer, names) && FieldOk(field, names) && forall a | a in typeArgs ::
      NameOf(a) in names
    requires Bind(p, t, typeArgs, args, outer, field).Some?
    ensures BindsTo(Bind(p, t, typeArgs, args, outer, field).value, names)
  {
    if typeArgs != [] {
      ExplicitNamed(t.typeParams, typeArgs, outer, names);
    } else {
      InferredNamed(p, t, args, names);
    }
  }

  function Chosen(params: seq<string>, bind: Bindings): (r: seq<string>)
    requires forall x | x in params :: x in bind
    ensures |r| == |params| && forall i | 0 <= i < |params| :: r[i] == bind[params[i]]
  {
    seq(|params|, i requires 0 <= i < |params| => bind[params[i]])
  }

  // ---- what is left to expand ----

  /** Every call in this expression is of an ordinary function or of a copy in `done`. */
  predicate NodeSettled(e: Node, generics: set<string>, done: set<string>)
    decreases e, 1
  {
    match e
    case Apply(c, _, args) => (c in generics ==> c in done) && NodesSettled(args, generics, done)
    case Parts(_, ps) => NodesSettled(ps, generics, done)
    case _ => true
  }

  predicate NodesSettled(es: seq<Node>, generics: set<string>, done: set<string>)
    decreases es, 0
  {
    es == [] || (NodeSettled(es[0], generics, done) && NodesSettled(es[1..], generics, done))
  }

  /** Nothing is left to be done at compile time, and every call is settled. */
  predicate LineSettled(s: Line, generics: set<string>, done: set<string>)
    decreases s, 2
  {
    s.Do? && PiecesSettled(s.pieces, generics, done)
  }

  predicate PiecesSettled(ps: seq<Piece>, generics: set<string>, done: set<string>)
    decreases ps, 1
  {
    ps == [] ||
    ((match ps[0] case Expression(e) => NodeSettled(e, generics, done) case Nested(b) => LinesSettled(b, generics,
      done))
     && PiecesSettled(ps[1..], generics, done))
  }

  predicate LinesSettled(ss: seq<Line>, generics: set<string>, done: set<string>)
    decreases ss, 0
  {
    ss == [] || (LineSettled(ss[0], generics, done) && LinesSettled(ss[1..], generics, done))
  }

  lemma {:induction false} NodeStill(e: Node, generics: set<string>, done: set<string>, more: set<string>)
    requires NodeSettled(e, generics, done) && done <= more
    ensures NodeSettled(e, generics, more)
    decreases e, 1
  {
    match e
    case Apply(_, _, args) => NodesStill(args, generics, done, more);
    case Parts(_, ps) => NodesStill(ps, generics, done, more);
    case _ =>
  }

  lemma {:induction false} NodesStill(es: seq<Node>, generics: set<string>, done: set<string>, more: set<string>)
    requires NodesSettled(es, generics, done) && done <= more
    ensures NodesSettled(es, generics, more)
    decreases es, 0
  {
    if es != [] {
      NodeStill(es[0], generics, done, more);
      NodesStill(es[1..], generics, done, more);
    }
  }

  lemma {:induction false} PiecesStill(ps: seq<Piece>, generics: set<string>, done: set<string>, more: set<string>)
    requires PiecesSettled(ps, generics, done) && done <= more
    ensures PiecesSettled(ps, generics, more)
    decreases ps, 1
  {
    if ps != [] {
      match ps[0] {
        case Expression(e) => NodeStill(e, generics, done, more);
        case Nested(b) => LinesStill(b, generics, done, more);
      }
      PiecesStill(ps[1..], generics, done, more);
    }
  }

  lemma {:induction false} LinesStill(ss: seq<Line>, generics: set<string>, done: set<string>, more: set<string>)
    requires LinesSettled(ss, generics, done) && done <= more
    ensures LinesSettled(ss, generics, more)
    decreases ss, 0
  {
    if ss != [] {
      PiecesStill(ss[0].pieces, generics, done, more);
      LinesStill(ss[1..], generics, done, more);
    }
  }

  lemma {:induction false} PiecesJoin(a: seq<Piece>, b: seq<Piece>, generics: set<string>, done: set<string>)
    requires PiecesSettled(a, generics, done) && PiecesSettled(b, generics, done)
    ensures PiecesSettled(a + b, generics, done)
    decreases |a|
  {
    if a == [] {
      assert a + b == b;
    } else {
      PiecesJoin(a[1..], b, generics, done);
      assert (a + b)[1..] == a[1..] + b;
    }
  }

  lemma {:induction false} LinesJoin(a: seq<Line>, b: seq<Line>, generics: set<string>, done: set<string>)
    requires LinesSettled(a, generics, done) && LinesSettled(b, generics, done)
    ensures LinesSettled(a + b, generics, done)
    decreases |a|
  {
    if a == [] {
      assert a + b == b;
    } else {
      LinesJoin(a[1..], b, generics, done);
      assert (a + b)[1..] == a[1..] + b;
    }
  }
}
