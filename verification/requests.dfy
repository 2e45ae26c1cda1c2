/** Which calls of templates are met, and when a copy depends on the field that is current
    when it is first asked for. */
module Requests {
  import opened Syntax
  import opened Generics
  import opened Expansion

  // ---- the calls a construct meets ----

  ghost function CallRequests(p: Source, name: string, typeArgs: seq<TypeArg>, args: seq<Node>, outer: Bindings,
      field: Option<Field>): set<Request>
    requires name in p.generics
  {
    match Bind(p, p.generics[name], typeArgs, args, outer, field)
    case None => {}
    case Some(bind) => {Request.Request(name, bind, field)}
  }

  ghost function NodeRequests(p: Source, e: Node, at: Place): set<Request>
    decreases e, 1
  {
    match e
    case Apply(callee, typeArgs, args) =>
      var lowered := NodesLowered(p, args, at);
      NodesRequests(p, args, at)
      + if lowered.Some? && callee in p.generics then
        CallRequests(p, callee, typeArgs, lowered.value, at.outer, at.field) else {}
    case Parts(_, parts) => NodesRequests(p, parts, at)
    case _ => {}
  }

  ghost function NodesRequests(p: Source, es: seq<Node>, at: Place): set<Request>
    decreases es, 0
  {
    if es == [] then {}
    else NodeRequests(p, es[0], at) + if NodeLowered(p, es[0], at).Some? then NodesRequests(p, es[1..], at) else {}
  }

  ghost function LineRequests(p: Source, s: Line, at: Place): set<Request>
    decreases s, 3
  {
    match s
    case Do(_, pieces) => PiecesRequests(p, pieces, at)
    case ForEach(item, coll, body) =>
      if coll in at.env && at.env[coll].FieldList? && at.env[coll].name in p.objects
      then EachRequests(p, p.objects[at.env[coll].name], item, body, at) else {}
    case ByKind(scrutinee, arms) =>
      if scrutinee in at.env && at.env[scrutinee].FieldItem? then ArmRequests(p, arms, at.env[scrutinee].field.kind, at)
        else {}
    case _ => {}
  }

  ghost function ArmRequests(p: Source, arms: seq<Arm>, kind: string, at: Place): set<Request>
    decreases arms, 2
  {
    match ArmFor(arms, kind, None) case None => {} case Some(body) => NodeRequests(p, body, at)
  }

  ghost function EachRequests(p: Source, fields: seq<Field>, item: string, body: seq<Line>, at: Place): set<Request>
    decreases body, 5, |fields|
  {
    if fields == [] then {}
    else
      var k := |fields| - 1;
      EachRequests(p, fields[..k], item, body, at)
      + if EachLowered(p, fields[..k], item, body, at).Some?
        then BlockRequests(p, body, Place(at.env[item := FieldItem(fields[k])], at.outer, Some(fields[k]))) else {}
  }

  lemma {:induction false} EachMeets(p: Source, fields: seq<Field>, item: string, body: seq<Line>, at: Place, i: nat)
    requires i < |fields| && EachLowered(p, fields[..i], item, body, at).Some?
    ensures BlockRequests(p, body, Place(at.env[item := FieldItem(fields[i])], at.outer, Some(fields[i])))
            <= EachRequests(p, fields, item, body, at)
    decreases |fields|
  {
    hide EachLowered, BlockRequests;
    var k := |fields| - 1;
    if i < k {
      assert fields[..k][..i] == fields[..i] && fields[..k][i] == fields[i];
      EachMeets(p, fields[..k], item, body, at, i);
    }
  }

  ghost function PiecesRequests(p: Source, ps: seq<Piece>, at: Place): set<Request>
    decreases ps, 5
  {
    if ps == [] then {}
    else PieceRequests(p, ps[0], at) + if PieceLowered(p, ps[0], at).Some? then PiecesRequests(p, ps[1..], at) else {}
  }

  ghost function PieceRequests(p: Source, piece: Piece, at: Place): set<Request>
    decreases piece, 4
  {
    match piece case Expression(e) => NodeRequests(p, e, at) case Nested(b) => BlockRequests(p, b, at)
  }

  ghost function BlockRequests(p: Source, ss: seq<Line>, at: Place): set<Request>
    decreases ss, 4
  {
    if ss == [] then {}
    else
      var (first, env) := LineLowered(p, ss[0], at);
      LineRequests(p, ss[0], at) + if first.Some? then BlockRequests(p, ss[1..], at.(env := env)) else {}
  }

  /** The calls the copy asked for by `r` meets in its body. */
  ghost function BodyRequests(p: Source, r: Request): set<Request>
    requires r.name in p.generics
  {
    var t := p.generics[r.name];
    BlockRequests(p, t.body, Place(Seeded(r.bind, t.params), r.bind, r.field))
  }

  // ---- the calls ordinary functions meet where the rewriting looks ----

  ghost function NodeFinds(p: Source, e: Node): set<Request>
    decreases e, 1
  {
    match e
    case Apply(callee, typeArgs, args) =>
      var rewritten := NodesRewritten(p, args);
      NodesFind(p, args)
      + if rewritten.Some? && callee in p.generics then CallRequests(p, callee, typeArgs, rewritten.value, map[], None)
        else {}
    case Parts(true, parts) => NodesFind(p, parts)
    case _ => {}
  }

  ghost function NodesFind(p: Source, es: seq<Node>): set<Request>
    decreases es, 0
  {
    if es == [] then {} else NodeFinds(p, es[0]) + if NodeRewritten(p, es[0]).Some? then NodesFind(p, es[1..]) else {}
  }

  ghost function LineFinds(p: Source, s: Line): set<Request>
    decreases s, 3
  {
    if s.Do? && s.seen then PiecesFind(p, s.pieces) else {}
  }

  ghost function PiecesFind(p: Source, ps: seq<Piece>): set<Request>
    decreases ps, 2
  {
    if ps == [] then {} else PieceFinds(p, ps[0]) + if PieceRewritten(p, ps[0]).Some? then PiecesFind(p, ps[1..])
      else {}
  }

  ghost function PieceFinds(p: Source, piece: Piece): set<Request>
    decreases piece, 1
  {
    match piece case Expression(e) => NodeFinds(p, e) case Nested(b) => LinesFind(p, b)
  }

  ghost function LinesFind(p: Source, ss: seq<Line>): set<Request>
    decreases ss, 0
  {
    if ss == [] then {} else LineFinds(p, ss[0]) + if LineRewritten(p, ss[0]).Some? then LinesFind(p, ss[1..]) else {}
  }

  ghost function UnitsFind(p: Source, us: seq<Unit>): set<Request> {
    if us == [] then {}
    else
      (match us[0] case Ordinary(b) => LinesFind(p, b) case TopLevel(l) => LineFinds(p, l))
      + if UnitRewritten(p, us[0]).Some? then UnitsFind(p, us[1..]) else {}
  }

  ghost function TopRequests(p: Source, us: seq<Unit>, env: Env): set<Request> {
    if us == [] then {}
    else
      match us[0]
      case Ordinary(_) => TopRequests(p, us[1..], env)
      case TopLevel(l) =>
        var (first, env1) := LineLowered(p, l, Place(env, map[], None));
        LineRequests(p, l, Place(env, map[], None)) + if first.Some? then TopRequests(p, us[1..], env1) else {}
  }

  /** The calls a program meets outside its templates. */
  ghost function Roots(p: Source, us: seq<Unit>): set<Request> {
    var rewritten := UnitsRewritten(p, us);
    UnitsFind(p, us) + if rewritten.Some? then TopRequests(p, rewritten.value, map[]) else {}
  }

  // ---- the calls an expansion meets ----

  /** Each call is met in the body of the copy the one before asks for. */
  ghost predicate Leads(p: Source, roots: set<Request>, chain: seq<Request>) {
    && chain != [] && chain[0] in roots
    && forall i {:trigger chain[i]} | 1 <= i < |chain| ::
      chain[i - 1].name in p.generics && chain[i] in BodyRequests(p, chain[i - 1])
  }

  /** The call is met from the program, directly or through templates. */
  ghost predicate Reached(p: Source, roots: set<Request>, r: Request) {
    exists chain :: Leads(p, roots, chain) && chain[|chain| - 1] == r
  }

  lemma ReachedRoot(p: Source, roots: set<Request>, r: Request)
    requires r in roots
    ensures Reached(p, roots, r)
  {
    assert Leads(p, roots, [r]) && [r][0] == r;
  }

  lemma ReachedNext(p: Source, roots: set<Request>, r: Request, next: Request)
    requires Reached(p, roots, r) && r.name in p.generics && next in BodyRequests(p, r)
    ensures Reached(p, roots, next)
  {
    hide BodyRequests;
    var chain :| Leads(p, roots, chain) && chain[|chain| - 1] == r;
    var longer := chain + [next];
    assert forall i | 0 <= i < |chain| :: longer[i] == chain[i];
    assert Leads(p, roots, longer);
  }

  /** Every call in `rs` is met. */
  ghost predicate AllReached(p: Source, roots: set<Request>, rs: set<Request>) {
    forall r | r in rs :: Reached(p, roots, r)
  }

  /** A call that is met has no copy. */
  ghost predicate Stuck(p: Source, roots: set<Request>) {
    exists r :: Reached(p, roots, r) && r.name in p.generics && CopyOf(p, r) == None
  }

  function CopyOf(p: Source, r: Request): Option<seq<Line>>
    requires r.name in p.generics
  {
    CopyBody(p, p.generics[r.name], r.bind, r.field)
  }

  /** The copy was asked for, is named after its template and types, and has the body it
      should have. */
  ghost predicate Faithful(p: Source, roots: set<Request>, s: Instance) {
    && Reached(p, roots, s.origin) && s.origin.name in p.generics
    && (forall x | x in p.generics[s.origin.name].typeParams :: x in s.origin.bind)
    && s.name == Mangle(s.origin.name, Chosen(p.generics[s.origin.name].typeParams, s.origin.bind))
    && CopyOf(p, s.origin) == Some(s.body)
  }

  // ---- copies that depend on who asks first ----

  /** The result type of the template is one of its type parameters. */
  predicate FieldBound(t: Template) {
    t.ret.NamedType? && t.ret.name in t.typeParams
  }

  /** All type parameters but the result type are known from the arguments, and that one is not. */
  predicate FieldDecides(p: Source, t: Template, typeArgs: seq<TypeArg>, args: seq<Node>) {
    && typeArgs == [] && |args| == |t.params| && FieldBound(t)
    && Inferred(p, t, args).Some? && t.ret.name !in Inferred(p, t, args).value
    && forall x | x in t.typeParams && x != t.ret.name :: x in Inferred(p, t, args).value
  }

  /** A call goes to the same copy whatever field is current exactly if the field does not
      decide it. */
  lemma CallExactly(p: Source, name: string, typeArgs: seq<TypeArg>, args: seq<Node>, outer: Bindings)
    requires name in p.generics
    ensures (forall f, g :: CopyName(p, name, typeArgs, args, outer, f) == CopyName(p, name, typeArgs, args, outer, g))
            <==> !FieldDecides(p, p.generics[name], typeArgs, args)
  {
    var t := p.generics[name];
    if FieldDecides(p, t, typeArgs, args) {
      CallDecided(p, name, typeArgs, args, outer, Some(Field("", "object", "")));
      CallDecided(p, name, typeArgs, args, outer, None);
    } else {
      forall f, g
        ensures CopyName(p, name, typeArgs, args, outer, f) == CopyName(p, name, typeArgs, args, outer, g)
      {
        CallUndecided(p, name, typeArgs, args, outer, f);
        CallUndecided(p, name, typeArgs, args, outer, g);
      }
    }
  }

  lemma CallDecided(p: Source, name: string, typeArgs: seq<TypeArg>, args: seq<Node>, outer: Bindings, f: Option<Field>)
    requires name in p.generics && FieldDecides(p, p.generics[name], typeArgs, args)
    ensures CopyName(p, name, typeArgs, args, outer, f).Some? <==> f.Some? && f.value.kind == "object"
  {
    hide Mangle, Inferred, Chosen;
  }

  lemma CallUndecided(p: Source, name: string, typeArgs: seq<TypeArg>, args: seq<Node>, outer: Bindings,
      f: Option<Field>)
    requires name in p.generics && !FieldDecides(p, p.generics[name], typeArgs, args)
    ensures CopyName(p, name, typeArgs, args, outer, f) == CopyName(p, name, typeArgs, args, outer, None)
  {
    hide Mangle, Inferred, Chosen;
  }

  /** A call that is met is decided by the field that was current outside; loops over
      fields have a current field of their own. */
  predicate NodeAsks(p: Source, e: Node, at: Place)
    decreases e, 1
  {
    match e
    case Apply(callee, typeArgs, args) =>
      NodesAsk(p, args, at)
      || (NodesLowered(p, args, at).Some? && callee in p.generics
          && FieldDecides(p, p.generics[callee], typeArgs, NodesLowered(p, args, at).value))
    case Parts(_, parts) => NodesAsk(p, parts, at)
    case _ => false
  }

  predicate NodesAsk(p: Source, es: seq<Node>, at: Place)
    decreases es, 0
  {
    es != [] && (NodeAsks(p, es[0], at) || (NodeLowered(p, es[0], at).Some? && NodesAsk(p, es[1..], at)))
  }

  predicate LineAsks(p: Source, s: Line, at: Place)
    decreases s, 3
  {
    match s
    case Do(_, pieces) => PiecesAsk(p, pieces, at)
    case ByKind(scrutinee, arms) =>
      scrutinee in at.env && at.env[scrutinee].FieldItem? && ArmAsks(p, arms, at.env[scrutinee].field.kind, at)
    case _ => false
  }

  predicate ArmAsks(p: Source, arms: seq<Arm>, kind: string, at: Place)
    decreases arms, 2
  {
    match ArmFor(arms, kind, None) case None => false case Some(body) => NodeAsks(p, body, at)
  }

  predicate PiecesAsk(p: Source, ps: seq<Piece>, at: Place)
    decreases ps, 5
  {
    ps != [] && (PieceAsks(p, ps[0], at) || (PieceLowered(p, ps[0], at).Some? && PiecesAsk(p, ps[1..], at)))
  }

  predicate PieceAsks(p: Source, piece: Piece, at: Place)
    decreases piece, 4
  {
    match piece case Expression(e) => NodeAsks(p, e, at) case Nested(b) => BlockAsks(p, b, at)
  }

  predicate BlockAsks(p: Source, ss: seq<Line>, at: Place)
    decreases ss, 4
  {
    ss != [] &&
    var (first, env) := LineLowered(p, ss[0], at);
    LineAsks(p, ss[0], at) || (first.Some? && BlockAsks(p, ss[1..], at.(env := env)))
  }

  /** Without a current field an asking construct fails, and any other is what it was. */
  lemma {:induction false} NodeUnfielded(p: Source, e: Node, at: Place)
    ensures NodeLowered(p, e, at.(field := None)) == if NodeAsks(p, e, at) then None else NodeLowered(p, e, at)
    decreases e, 1
  {
    hide CopyName, FieldDecides;
    match e
    case Apply(callee, typeArgs, args) =>
      NodesUnfielded(p, args, at);
      if callee in p.generics && NodesLowered(p, args, at).Some? && !NodesAsk(p, args, at) {
        var lowered := NodesLowered(p, args, at).value;
        if FieldDecides(p, p.generics[callee], typeArgs, lowered) {
          CallDecided(p, callee, typeArgs, lowered, at.outer, None);
        } else {
          CallUndecided(p, callee, typeArgs, lowered, at.outer, at.field);
        }
      }
    case Parts(_, parts) => NodesUnfielded(p, parts, at);
    case _ =>
  }

  lemma {:induction false} NodesUnfielded(p: Source, es: seq<Node>, at: Place)
    ensures NodesLowered(p, es, at.(field := None)) == if NodesAsk(p, es, at) then None else NodesLowered(p, es, at)
    decreases es, 0
  {
    hide NodeLowered, NodeAsks;
    if es != [] {
      NodeUnfielded(p, es[0], at);
      NodesUnfielded(p, es[1..], at);
    }
  }

  lemma {:induction false} LineUnfielded(p: Source, s: Line, at: Place)
    ensures LineLowered(p, s, at.(field := None)).1 == LineLowered(p, s, at).1
    ensures LineLowered(p, s, at.(field := None)).0 == if LineAsks(p, s, at) then None else LineLowered(p, s, at).0
    decreases s, 3
  {
    hide PiecesLowered, PiecesAsk, NodeLowered, NodeAsks, EachLowered, ArmFor;
    match s
    case Do(_, pieces) => PiecesUnfielded(p, pieces, at);
    case ForEach(item, coll, body) =>
      if coll in at.env && at.env[coll].FieldList? && at.env[coll].name in p.objects {
        EachSame(p, p.objects[at.env[coll].name], item, body, at);
      }
    case ByKind(scrutinee, arms) =>
      if scrutinee in at.env && at.env[scrutinee].FieldItem? {
        var arm := ArmFor(arms, at.env[scrutinee].field.kind, None);
        if arm.Some? {
          NodeUnfielded(p, arm.value, at);
        }
      }
    case _ =>
  }

  /** A loop over fields has its own current field, whoever asks. */
  lemma {:induction false} EachSame(p: Source, fields: seq<Field>, item: string, body: seq<Line>, at: Place)
    ensures EachLowered(p, fields, item, body, at) == EachLowered(p, fields, item, body, at.(field := None))
    decreases |fields|
  {
    hide BlockLowered;
    if fields != [] {
      EachSame(p, fields[..|fields| - 1], item, body, at);
    }
  }

  lemma {:induction false} PiecesUnfielded(p: Source, ps: seq<Piece>, at: Place)
    ensures PiecesLowered(p, ps, at.(field := None)) == if PiecesAsk(p, ps, at) then None else PiecesLowered(p, ps, at)
    decreases ps, 2
  {
    hide NodeLowered, NodeAsks, BlockLowered, BlockAsks;
    if ps != [] {
      match ps[0] {
        case Expression(e) => NodeUnfielded(p, e, at);
        case Nested(b) => BlockUnfielded(p, b, at);
      }
      PiecesUnfielded(p, ps[1..], at);
    }
  }

  lemma {:induction false} BlockUnfielded(p: Source, ss: seq<Line>, at: Place)
    ensures BlockLowered(p, ss, at.(field := None)) == if BlockAsks(p, ss, at) then None else BlockLowered(p, ss, at)
    decreases ss, 1
  {
    hide LineLowered, LineAsks;
    if ss != [] {
      LineUnfielded(p, ss[0], at);
      var env := LineLowered(p, ss[0], at).1;
      BlockUnfielded(p, ss[1..], at.(env := env));
      assert at.(field := None).(env := env) == at.(env := env).(field := None);
    }
  }

  /** The copy of a template, asked for while `f` is current, meets a call that `f` decides. */
  predicate CopyAsks(p: Source, t: Template, bind: Bindings, f: Option<Field>) {
    BlockAsks(p, t.body, Place(Seeded(bind, t.params), bind, f))
  }

  /** The copy asked for while a field is current differs from the one asked for outside any
      loop exactly if it meets a call that the field decides, and can be made. */
  lemma CopyExactly(p: Source, t: Template, bind: Bindings, f: Option<Field>)
    ensures CopyBody(p, t, bind, f) == CopyBody(p, t, bind, None)
      <==> !(CopyAsks(p, t, bind, f) && CopyBody(p, t, bind, f).Some?)
  {
    BlockUnfielded(p, t.body, Place(Seeded(bind, t.params), bind, f));
  }

  /** So a copy is the same whoever asks first exactly if no field decides a call of it. */
  lemma CopiesExactly(p: Source, t: Template, bind: Bindings)
    ensures (forall f, g :: CopyBody(p, t, bind, f) == CopyBody(p, t, bind, g))
            <==> forall f :: !(CopyAsks(p, t, bind, f) && CopyBody(p, t, bind, f).Some?)
  {
    hide CopyBody, CopyAsks;
    forall f
      ensures CopyBody(p, t, bind, f) == CopyBody(p, t, bind, None)
        <==> !(CopyAsks(p, t, bind, f) && CopyBody(p, t, bind, f).Some?)
    {
      CopyExactly(p, t, bind, f);
    }
  }

  /** `g<T>()` returns a `T` and `h<S>()` calls `g()`. */
  function Asking(): Source {
    var g := Template(["T"], [], NamedType("T"), []);
    var h := Template(["S"], [], KindType("int"), [Do(true, [Expression(Node.Apply("g", [], []))])]);
    Source(map["g" := g, "h" := h], map[], map[])
  }

  /** The copy of `h` for `int` calls the copy of `g` for the type of the field that was
      current when the copy was first asked for. */
  lemma AskerMatters(n: string)
    ensures
      var p, called := Asking(), Node.Apply("g__" + n, [], []);
      CopyBody(p, p.generics["h"], map["S" := "int"], Some(Field("f", "object", n)))
        == Some([Do(true, [Expression(called)])])
  {
    hide BlockLowered, NodeLowered, NodesLowered, Bind;
    var bind := map["S" := "int"];
    var at := Place(Seeded(bind, []), bind, Some(Field("f", "object", n)));
    AskedCall(at, n);
    AskedLine(Asking(), Node.Apply("g", [], []), Node.Apply("g__" + n, [], []), at);
  }

  lemma AskedCall(at: Place, n: string)
    requires at.field == Some(Field("f", "object", n))
    ensures NodeLowered(Asking(), Node.Apply("g", [], []), at) == Some(Node.Apply("g__" + n, [], []))
  {
    var p := Asking();
    var t := p.generics["g"];
    assert NodesLowered(p, [], at) == Some([]);
    assert Inferred(p, t, []) == Some(map[]);
    assert FromField(t, map[], at.field) == map["T" := n];
    assert Bind(p, t, [], [], at.outer, at.field) == Some(map["T" := n]);
    assert Chosen(["T"], map["T" := n]) == [n];
    One("g", n);
    assert "g" + "__" + n == "g__" + n;
    assert CopyName(p, "g", [], [], at.outer, at.field) == Some("g__" + n);
  }

  lemma AskedLine(p: Source, e: Node, f: Node, at: Place)
    requires NodeLowered(p, e, at) == Some(f)
    ensures BlockLowered(p, [Do(true, [Expression(e)])], at) == Some([Do(true, [Expression(f)])])
  {
    hide NodeLowered;
    var pieces := [Expression(e)];
    assert pieces[1..] == [] && [Do(true, pieces)][1..] == [];
    assert PiecesLowered(p, [], at) == Some([]) && BlockLowered(p, [], at) == Some([]);
    assert PieceLowered(p, pieces[0], at) == Some(Expression(f));
    assert [Expression(f)] + [] == [Expression(f)];
    assert PiecesLowered(p, pieces, at) == Some([Expression(f)]);
    var after := [Do(true, [Expression(f)])];
    assert LineLowered(p, Do(true, pieces), at) == (Some(after), at.env) && at.(env := at.env) == at;
    assert after + [] == after;
  }

  /** The call of `h<int>()` while a field of an object `n` is current. */
  function AskFor(n: string): Request {
    Request.Request("h", map["S" := "int"], Some(Field("f", "object", n)))
  }

  ghost predicate Asked(r: Request) {
    r.name == "g" || exists n :: r == AskFor(n)
  }

  lemma AskedMeets(r: Request)
    requires Asked(r) && r.name in Asking().generics
    ensures forall next | next in BodyRequests(Asking(), r) :: next.name == "g"
  {
    hide Bind, Inferred, NodeLowered;
    var p := Asking();
    var at := Place(Seeded(r.bind, []), r.bind, r.field);
    if r.name == "g" {
      assert BodyRequests(p, r) == BlockRequests(p, [], at) == {};
    } else {
      var call := Node.Apply("g", [], []);
      var pieces := [Expression(call)];
      assert p.generics["h"].body == [Do(true, pieces)];
      assert [Do(true, pieces)][1..] == [] && pieces[1..] == [];
      assert forall here: Place :: BlockRequests(p, [], here) == {};
      assert PiecesRequests(p, [], at) == {};
      assert LineRequests(p, Do(true, pieces), at) == PiecesRequests(p, pieces, at);
      assert BodyRequests(p, r) == PiecesRequests(p, pieces, at) == NodeRequests(p, call, at);
      assert NodesRequests(p, [], at) == {};
    }
  }

  /** Every call this program meets has a copy. */
  lemma AskingNotStuck(first: string, second: string)
    ensures !Stuck(Asking(), {AskFor(first), AskFor(second)})
  {
    hide BodyRequests, CopyBody, Asked;
    var p, roots := Asking(), {AskFor(first), AskFor(second)};
    forall r | Reached(p, roots, r) && r.name in p.generics
      ensures CopyOf(p, r) != None
    {
      var chain :| Leads(p, roots, chain) && chain[|chain| - 1] == r;
      AskedChain(roots, first, second, chain, |chain| - 1);
      AskedCopied(r);
    }
  }

  lemma {:induction false} AskedChain(roots: set<Request>, first: string, second: string, chain: seq<Request>, i: nat)
    requires roots == {AskFor(first), AskFor(second)} && Leads(Asking(), roots, chain) && i < |chain|
    ensures Asked(chain[i])
  {
    hide BodyRequests;
    if i > 0 {
      AskedChain(roots, first, second, chain, i - 1);
      AskedMeets(chain[i - 1]);
    }
  }

  lemma AskedCopied(r: Request)
    requires Asked(r) && r.name in Asking().generics
    ensures CopyOf(Asking(), r) != None
  {
    if r.name == "g" {
      assert Asking().generics["g"].body == [];
    } else {
      var n :| r == AskFor(n);
      AskerMatters(n);
    }
  }
}
