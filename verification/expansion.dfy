/** What the expander puts in place of a call and of a copy's body: a function of the
    program, the types bound and the object field that is current when the copy is first
    asked for. */
module Expansion {
  import opened Syntax
  import opened Generics

  /** The type environment a copy's body is lowered in. */
  function Seeded(bind: Bindings, params: seq<Param>): Env
    decreases |params|
  {
    if params == [] then map x | x in bind :: TypeName(bind[x])
    else
      var p := params[|params| - 1];
      var n := NameOf(p.typ);
      var env := Seeded(bind, params[..|params| - 1]);
      if p.name in env then env else env[p.name := TypeName(if p.typ.NamedType? && n in bind then bind[n] else n)]
  }

  /** What `::reflexpr` of a name is. */
  function Reflected(p: Source, env: Env, arg: string): Option<Known> {
    if arg in env && env[arg].TypeName? then Some(Artifact(env[arg].name))
    else if arg in p.locals then Some(Artifact(p.locals[arg]))
    else if arg in p.objects then Some(Artifact(arg))
    else None
  }

  /** The arm of a match over field kinds that is taken. */
  function ArmFor(arms: seq<Arm>, kind: string, fallback: Option<Node>): (r: Option<Node>)
    ensures r.Some? ==> r == fallback || exists i :: 0 <= i < |arms| && arms[i].body == r.value
  {
    if arms == [] then fallback
    else
      assert arms[0].body == arms[0].body && forall i | 0 <= i < |arms| - 1 :: arms[1..][i] == arms[i + 1];
      if arms[0].isDefault then ArmFor(arms[1..], kind, Some(arms[0].body))
      else if arms[0].kind == kind then Some(arms[0].body)
      else ArmFor(arms[1..], kind, fallback)
  }

  lemma {:induction false} ArmNamed(arms: seq<Arm>, kind: string, fallback: Option<Node>, names: set<string>)
    requires ArmsNamed(arms, names) && (fallback.Some? ==> NodeNamed(fallback.value, names))
    ensures ArmFor(arms, kind, fallback).Some? ==> NodeNamed(ArmFor(arms, kind, fallback).value, names)
  {
    if arms != [] {
      if arms[0].isDefault {
        ArmNamed(arms[1..], kind, Some(arms[0].body), names);
      } else if arms[0].kind != kind {
        ArmNamed(arms[1..], kind, fallback, names);
      }
    }
  }

  // ---- lowering ----

  /** The surroundings of an expression: what is known, what is bound, the current field. */
  datatype Place = Place(env: Env, outer: Bindings, field: Option<Field>)

  /** The name of the copy a call of `name` goes to. */
  function CopyName(p: Source, name: string, typeArgs: seq<TypeArg>, args: seq<Node>, outer: Bindings,
      field: Option<Field>): Option<string>
    requires name in p.generics
  {
    var t := p.generics[name];
    match Bind(p, t, typeArgs, args, outer, field)
    case None => None
    case Some(bind) => Some(Mangle(name, Chosen(t.typeParams, bind)))
  }

  function NodeLowered(p: Source, e: Node, at: Place): Option<Node>
    decreases e, 1
  {
    match e
    case Apply(callee, typeArgs, args) =>
      (match NodesLowered(p, args, at)
       case None => None
       case Some(lowered) =>
         if callee !in p.generics then Some(Node.Apply(callee, typeArgs, lowered))
         else
           match CopyName(p, callee, typeArgs, lowered, at.outer, at.field)
           case None => None
           case Some(copy) => Some(Node.Apply(copy, [], lowered)))
    case Parts(seen, parts) =>
      (match NodesLowered(p, parts, at)
       case None => None
       case Some(lowered) => Some(Parts(seen, lowered)))
    case FieldOf(base, member) =>
      if base in at.env && at.env[base].FieldItem? && member == "name" then Some(Quoted(at.env[base].field.name))
      else if base in at.env && at.env[base].FieldItem? && member == "type_name" then
        Some(Quoted(at.env[base].field.typeName))
      else Some(e)
    case _ => Some(e)
  }

  function NodesLowered(p: Source, es: seq<Node>, at: Place): Option<seq<Node>>
    decreases es, 0
  {
    if es == [] then Some([])
    else
      match NodeLowered(p, es[0], at)
      case None => None
      case Some(first) =>
        match NodesLowered(p, es[1..], at)
        case None => None
        case Some(rest) => Some([first] + rest)
  }

  /** The lines a line becomes, and what is known after it. */
  function LineLowered(p: Source, s: Line, at: Place): (Option<seq<Line>>, Env)
    decreases s, 3
  {
    match s
    case Do(seen, pieces) =>
      ((match PiecesLowered(p, pieces, at)
        case None => None
        case Some(lowered) => Some([Do(seen, lowered)])),
       at.env)
    case Reflect(target, arg) =>
      (match Reflected(p, at.env, arg)
       case None => (None, at.env)
       case Some(art) => (Some([]), at.env[target := art]))
    case ListMembers(target, arg) =>
      if arg in at.env && at.env[arg].Artifact? && at.env[arg].name in p.objects
      then (Some([]), at.env[target := FieldList(at.env[arg].name)])
      else (None, at.env)
    case ForEach(item, coll, body) =>
      (if coll in at.env && at.env[coll].FieldList? && at.env[coll].name in p.objects
       then EachLowered(p, p.objects[at.env[coll].name], item, body, at) else None,
       at.env)
    case ByKind(scrutinee, arms) =>
      (if scrutinee in at.env && at.env[scrutinee].FieldItem? then ArmLowered(p, arms, at.env[scrutinee].field.kind, at)
        else None,
       at.env)
  }

  function ArmLowered(p: Source, arms: seq<Arm>, kind: string, at: Place): Option<seq<Line>>
    decreases arms, 2
  {
    match ArmFor(arms, kind, None)
    case None => Some([])
    case Some(body) =>
      match NodeLowered(p, body, at)
      case None => None
      case Some(e) => Some([Do(true, [Expression(e)])])
  }

  /** The body once for each field, which is the current one meanwhile. */
  function EachLowered(p: Source, fields: seq<Field>, item: string, body: seq<Line>, at: Place): Option<seq<Line>>
    decreases body, 5, |fields|
  {
    if fields == [] then Some([])
    else
      var k := |fields| - 1;
      match EachLowered(p, fields[..k], item, body, at)
      case None => None
      case Some(before) =>
        match BlockLowered(p, body, Place(at.env[item := FieldItem(fields[k])], at.outer, Some(fields[k])))
        case None => None
        case Some(last) => Some(before + last)
  }

  lemma {:induction false} EachStep(p: Source, fields: seq<Field>, i: nat, item: string, body: seq<Line>, at: Place,
      before: seq<Line>)
    requires i < |fields| && EachLowered(p, fields[..i], item, body, at) == Some(before)
    ensures
      var one := BlockLowered(p, body, Place(at.env[item := FieldItem(fields[i])], at.outer, Some(fields[i])));
      && (one.None? ==> EachLowered(p, fields, item, body, at) == None)
      && (one.Some? ==> EachLowered(p, fields[..i + 1], item, body, at) == Some(before + one.value))
  {
    hide BlockLowered;
    var upto := fields[..i + 1];
    assert upto[..i] == fields[..i] && upto[i] == fields[i];
    if EachLowered(p, upto, item, body, at) == None {
      EachNone(p, fields, i + 1, item, body, at);
    }
  }

  lemma {:induction false} EachNone(p: Source, fields: seq<Field>, i: nat, item: string, body: seq<Line>, at: Place)
    requires i <= |fields| && EachLowered(p, fields[..i], item, body, at) == None
    ensures EachLowered(p, fields, item, body, at) == None
    decreases |fields|
  {
    hide BlockLowered;
    if i == |fields| {
      assert fields[..i] == fields;
    } else {
      var k := |fields| - 1;
      assert fields[..k][..i] == fields[..i];
      EachNone(p, fields[..k], i, item, body, at);
    }
  }

  function PiecesLowered(p: Source, ps: seq<Piece>, at: Place): Option<seq<Piece>>
    decreases ps, 5
  {
    if ps == [] then Some([])
    else
      match PieceLowered(p, ps[0], at)
      case None => None
      case Some(first) =>
        match PiecesLowered(p, ps[1..], at)
        case None => None
        case Some(rest) => Some([first] + rest)
  }

  function PieceLowered(p: Source, piece: Piece, at: Place): Option<Piece>
    decreases piece, 4
  {
    match piece
    case Expression(e) => (match NodeLowered(p, e, at) case None => None case Some(x) => Some(Expression(x)))
    case Nested(b) => (match BlockLowered(p, b, at) case None => None case Some(x) => Some(Nested(x)))
  }

  function BlockLowered(p: Source, ss: seq<Line>, at: Place): Option<seq<Line>>
    decreases ss, 4
  {
    if ss == [] then Some([])
    else
      var (first, env) := LineLowered(p, ss[0], at);
      match first
      case None => None
      case Some(head) =>
        match BlockLowered(p, ss[1..], at.(env := env))
        case None => None
        case Some(rest) => Some(head + rest)
  }

  /** The body of the copy of a template for some bindings, when it is first asked for while
      `field` is current. */
  function CopyBody(p: Source, t: Template, bind: Bindings, field: Option<Field>): Option<seq<Line>> {
    BlockLowered(p, t.body, Place(Seeded(bind, t.params), bind, field))
  }

  // ---- rewriting of ordinary functions ----

  /** Ordinary functions are searched for calls of generic ones only in some places. */
  function NodeRewritten(p: Source, e: Node): Option<Node>
    decreases e, 1
  {
    match e
    case Apply(callee, typeArgs, args) =>
      (match NodesRewritten(p, args)
       case None => None
       case Some(rewritten) =>
         if callee !in p.generics then Some(Node.Apply(callee, typeArgs, rewritten))
         else
           match CopyName(p, callee, typeArgs, rewritten, map[], None)
           case None => None
           case Some(copy) => Some(Node.Apply(copy, [], rewritten)))
    case Parts(true, parts) =>
      (match NodesRewritten(p, parts)
       case None => None
       case Some(rewritten) => Some(Parts(true, rewritten)))
    case _ => Some(e)
  }

  function NodesRewritten(p: Source, es: seq<Node>): Option<seq<Node>>
    decreases es, 0
  {
    if es == [] then Some([])
    else
      match NodeRewritten(p, es[0])
      case None => None
      case Some(first) =>
        match NodesRewritten(p, es[1..])
        case None => None
        case Some(rest) => Some([first] + rest)
  }

  function LineRewritten(p: Source, s: Line): Option<Line>
    decreases s, 3
  {
    match s
    case Do(true, pieces) =>
      (match PiecesRewritten(p, pieces)
       case None => None
       case Some(rewritten) => Some(Do(true, rewritten)))
    case _ => Some(s)
  }

  function PiecesRewritten(p: Source, ps: seq<Piece>): Option<seq<Piece>>
    decreases ps, 2
  {
    if ps == [] then Some([])
    else
      match PieceRewritten(p, ps[0])
      case None => None
      case Some(first) =>
        match PiecesRewritten(p, ps[1..])
        case None => None
        case Some(rest) => Some([first] + rest)
  }

  function PieceRewritten(p: Source, piece: Piece): Option<Piece>
    decreases piece, 1
  {
    match piece
    case Expression(e) => (match NodeRewritten(p, e) case None => None case Some(x) => Some(Expression(x)))
    case Nested(b) => (match LinesRewritten(p, b) case None => None case Some(x) => Some(Nested(x)))
  }

  function LinesRewritten(p: Source, ss: seq<Line>): Option<seq<Line>>
    decreases ss, 0
  {
    if ss == [] then Some([])
    else
      match LineRewritten(p, ss[0])
      case None => None
      case Some(first) =>
        match LinesRewritten(p, ss[1..])
        case None => None
        case Some(rest) => Some([first] + rest)
  }

  function UnitsRewritten(p: Source, us: seq<Unit>): Option<seq<Unit>> {
    if us == [] then Some([])
    else
      match UnitRewritten(p, us[0])
      case None => None
      case Some(first) =>
        match UnitsRewritten(p, us[1..])
        case None => None
        case Some(rest) => Some([first] + rest)
  }

  function UnitRewritten(p: Source, u: Unit): Option<Unit> {
    match u
    case Ordinary(b) => (match LinesRewritten(p, b) case None => None case Some(x) => Some(Ordinary(x)))
    case TopLevel(l) => (match LineRewritten(p, l) case None => None case Some(x) => Some(TopLevel(x)))
  }

  /** The top level is run at compile time as one block, function declarations skipped. */
  function TopLowered(p: Source, us: seq<Unit>, env: Env): Option<seq<Line>> {
    if us == [] then Some([])
    else
      match us[0]
      case Ordinary(_) => TopLowered(p, us[1..], env)
      case TopLevel(l) =>
        var (first, env1) := LineLowered(p, l, Place(env, map[], None));
        match first
        case None => None
        case Some(head) =>
          match TopLowered(p, us[1..], env1)
          case None => None
          case Some(rest) => Some(head + rest)
  }

  function Functions(us: seq<Unit>): seq<seq<Line>> {
    if us == [] then []
    else (if us[0].Ordinary? then [us[0].body] else []) + Functions(us[1..])
  }

  // ---- rewriting mentions no new names ----

  lemma {:induction false} NodeStaysNamed(p: Source, e: Node, names: set<string>)
    requires NodeNamed(e, names) && NodeRewritten(p, e).Some?
    ensures NodeNamed(NodeRewritten(p, e).value, names)
    decreases e, 1
  {
    match e
    case Apply(_, _, args) => NodesStayNamed(p, args, names);
    case Parts(true, ps) => NodesStayNamed(p, ps, names);
    case _ =>
  }

  lemma {:induction false} NodesStayNamed(p: Source, es: seq<Node>, names: set<string>)
    requires NodesNamed(es, names) && NodesRewritten(p, es).Some?
    ensures NodesNamed(NodesRewritten(p, es).value, names)
    decreases es, 0
  {
    if es != [] {
      NodeStaysNamed(p, es[0], names);
      NodesStayNamed(p, es[1..], names);
    }
  }

  lemma {:induction false} LineStaysNamed(p: Source, s: Line, names: set<string>)
    requires LineNamed(s, names) && LineRewritten(p, s).Some?
    ensures LineNamed(LineRewritten(p, s).value, names)
    decreases s, 2
  {
    if s.Do? && s.seen {
      PiecesStayNamed(p, s.pieces, names);
    }
  }

  lemma {:induction false} PiecesStayNamed(p: Source, ps: seq<Piece>, names: set<string>)
    requires PiecesNamed(ps, names) && PiecesRewritten(p, ps).Some?
    ensures PiecesNamed(PiecesRewritten(p, ps).value, names)
    decreases ps, 1
  {
    if ps != [] {
      match ps[0] {
        case Expression(e) => NodeStaysNamed(p, e, names);
        case Nested(b) => LinesStayNamed(p, b, names);
      }
      PiecesStayNamed(p, ps[1..], names);
    }
  }

  lemma {:induction false} LinesStayNamed(p: Source, ss: seq<Line>, names: set<string>)
    requires LinesNamed(ss, names) && LinesRewritten(p, ss).Some?
    ensures LinesNamed(LinesRewritten(p, ss).value, names)
    decreases ss, 0
  {
    if ss != [] {
      LineStaysNamed(p, ss[0], names);
      LinesStayNamed(p, ss[1..], names);
    }
  }

  lemma {:induction false} UnitsStayNamed(p: Source, us: seq<Unit>, names: set<string>)
    requires UnitsNamed(us, names) && UnitsRewritten(p, us).Some?
    ensures UnitsNamed(UnitsRewritten(p, us).value, names)
  {
    if us != [] {
      match us[0] {
        case Ordinary(b) => LinesStayNamed(p, b, names);
        case TopLevel(l) => LineStaysNamed(p, l, names);
      }
      UnitsStayNamed(p, us[1..], names);
    }
  }

  // ---- where the rewriting does not look ----

  /** A call of a generic function where the rewriting never looks. */
  predicate NodeOverlooked(e: Node, generics: set<string>)
    decreases e, 1
  {
    match e
    case Apply(_, _, args) => NodesOverlooked(args, generics)
    case Parts(seen, parts) => if seen then NodesOverlooked(parts, generics) else !NodesSettled(parts, generics, {})
    case _ => false
  }

  predicate NodesOverlooked(es: seq<Node>, generics: set<string>)
    decreases es, 0
  {
    es != [] && (NodeOverlooked(es[0], generics) || NodesOverlooked(es[1..], generics))
  }

  predicate LineOverlooked(s: Line, generics: set<string>)
    decreases s, 2
  {
    match s
    case Do(seen, pieces) => if seen then PiecesOverlooked(pieces, generics) else !PiecesSettled(pieces, generics, {})
    case _ => true
  }

  predicate PiecesOverlooked(ps: seq<Piece>, generics: set<string>)
    decreases ps, 1
  {
    ps != [] &&
    ((match ps[0] case Expression(e) => NodeOverlooked(e, generics) case Nested(b) => LinesOverlooked(b, generics))
     || PiecesOverlooked(ps[1..], generics))
  }

  predicate LinesOverlooked(ss: seq<Line>, generics: set<string>)
    decreases ss, 0
  {
    ss != [] && (LineOverlooked(ss[0], generics) || LinesOverlooked(ss[1..], generics))
  }

  /** What is overlooked is still there, unless a copy has the name of a template. */
  lemma {:induction false} NodesNever(es: seq<Node>, generics: set<string>, done: set<string>)
    requires generics !! done && NodesSettled(es, generics, done)
    ensures NodesSettled(es, generics, {})
    decreases es, 0
  {
    if es != [] {
      NodeNever(es[0], generics, done);
      NodesNever(es[1..], generics, done);
    }
  }

  lemma {:induction false} NodeNever(e: Node, generics: set<string>, done: set<string>)
    requires generics !! done && NodeSettled(e, generics, done)
    ensures NodeSettled(e, generics, {})
    decreases e, 1
  {
    match e
    case Apply(_, _, args) => NodesNever(args, generics, done);
    case Parts(_, ps) => NodesNever(ps, generics, done);
    case _ =>
  }

  lemma {:induction false} PiecesNever(ps: seq<Piece>, generics: set<string>, done: set<string>)
    requires generics !! done && PiecesSettled(ps, generics, done)
    ensures PiecesSettled(ps, generics, {})
    decreases ps, 1
  {
    if ps != [] {
      match ps[0] {
        case Expression(e) => NodeNever(e, generics, done);
        case Nested(b) => LinesNever(b, generics, done);
      }
      PiecesNever(ps[1..], generics, done);
    }
  }

  lemma {:induction false} LinesNever(ss: seq<Line>, generics: set<string>, done: set<string>)
    requires generics !! done && LinesSettled(ss, generics, done)
    ensures LinesSettled(ss, generics, {})
    decreases ss, 0
  {
    if ss != [] {
      PiecesNever(ss[0].pieces, generics, done);
      LinesNever(ss[1..], generics, done);
    }
  }

  lemma {:induction false} NodeLeft(p: Source, e: Node, done: set<string>)
    requires p.generics.Keys !! done && NodeRewritten(p, e).Some? && NodeOverlooked(e, p.generics.Keys)
    ensures !NodeSettled(NodeRewritten(p, e).value, p.generics.Keys, done)
    decreases e, 1
  {
    match e
    case Apply(_, _, args) => NodesLeft(p, args, done);
    case Parts(seen, ps) =>
      if seen {
        NodesLeft(p, ps, done);
      } else if NodesSettled(ps, p.generics.Keys, done) {
        NodesNever(ps, p.generics.Keys, done);
      }
    case _ =>
  }

  lemma {:induction false} NodesLeft(p: Source, es: seq<Node>, done: set<string>)
    requires p.generics.Keys !! done && NodesRewritten(p, es).Some? && NodesOverlooked(es, p.generics.Keys)
    ensures !NodesSettled(NodesRewritten(p, es).value, p.generics.Keys, done)
    decreases es, 0
  {
    if NodeOverlooked(es[0], p.generics.Keys) {
      NodeLeft(p, es[0], done);
    } else {
      NodesLeft(p, es[1..], done);
    }
  }

  lemma {:induction false} LineLeft(p: Source, s: Line, done: set<string>)
    requires p.generics.Keys !! done && LineRewritten(p, s).Some? && LineOverlooked(s, p.generics.Keys)
    ensures !LineSettled(LineRewritten(p, s).value, p.generics.Keys, done)
    decreases s, 2
  {
    if s.Do? && s.seen {
      PiecesLeft(p, s.pieces, done);
    } else if s.Do? && PiecesSettled(s.pieces, p.generics.Keys, done) {
      PiecesNever(s.pieces, p.generics.Keys, done);
    }
  }

  lemma {:induction false} PiecesLeft(p: Source, ps: seq<Piece>, done: set<string>)
    requires p.generics.Keys !! done && PiecesRewritten(p, ps).Some? && PiecesOverlooked(ps, p.generics.Keys)
    ensures !PiecesSettled(PiecesRewritten(p, ps).value, p.generics.Keys, done)
    decreases ps, 1
  {
    match ps[0] {
      case Expression(e) =>
        if NodeOverlooked(e, p.generics.Keys) {
          NodeLeft(p, e, done);
        } else {
          PiecesLeft(p, ps[1..], done);
        }
      case Nested(b) =>
        if LinesOverlooked(b, p.generics.Keys) {
          LinesLeft(p, b, done);
        } else {
          PiecesLeft(p, ps[1..], done);
        }
    }
  }

  lemma {:induction false} LinesLeft(p: Source, ss: seq<Line>, done: set<string>)
    requires p.generics.Keys !! done && LinesRewritten(p, ss).Some? && LinesOverlooked(ss, p.generics.Keys)
    ensures !LinesSettled(LinesRewritten(p, ss).value, p.generics.Keys, done)
    decreases ss, 0
  {
    if LineOverlooked(ss[0], p.generics.Keys) {
      LineLeft(p, ss[0], done);
    } else {
      LinesLeft(p, ss[1..], done);
    }
  }
}
