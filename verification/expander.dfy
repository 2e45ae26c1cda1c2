/** The expander at work: it ends for every program, makes each copy once, and leaves no
    call of a generic function behind except where the rewriting never looks. */
module Expanding {
  import opened Syntax
  import opened Generics
  import opened Expansion
  import opened Requests
  import opened TypeBindings

  function NamesOf(emitted: seq<Instance>): set<string> {
    set s | s in emitted :: s.name
  }

  predicate Distinct(emitted: seq<Instance>) {
    forall i, j | 0 <= i < j < |emitted| :: emitted[i].name != emitted[j].name
  }

  lemma Smaller(all: set<string>, done: set<string>, more: set<string>)
    requires done <= more
    ensures |all - more| <= |all - done|
    ensures forall x | x in all && x in more && x !in done :: |all - more| < |all - done|
  {
    var a, b := all - more, all - done;
    assert a <= b;
    Subset(a, b);
    forall x | x in all && x in more && x !in done
      ensures |a| < |b|
    {
      assert a <= b - {x};
      Subset(a, b - {x});
    }
  }

  lemma Subset(a: set<string>, b: set<string>)
    requires a <= b
    ensures |a| <= |b|
    decreases |a|
  {
    if x :| x in a {
      Subset(a - {x}, b - {x});
    }
  }

  lemma SettledNothing(generics: set<string>, done: set<string>)
    ensures LinesSettled([], generics, done)
  {
  }

  lemma SettledDo(seen: bool, pieces: seq<Piece>, generics: set<string>, done: set<string>)
    requires PiecesSettled(pieces, generics, done)
    ensures LinesSettled([Do(seen, pieces)], generics, done)
  {
    hide PiecesSettled;
    assert [Do(seen, pieces)][1..] == [];
  }

  lemma SettledOne(e: Node, generics: set<string>, done: set<string>)
    requires NodeSettled(e, generics, done)
    ensures LinesSettled([Do(true, [Expression(e)])], generics, done)
  {
    hide NodeSettled;
    var pieces := [Expression(e)];
    assert pieces[1..] == [] && [Do(true, pieces)][1..] == [];
    assert PiecesSettled(pieces, generics, done);
  }

  class Expander {
    const source: Source
    ghost const names: set<string>
    /** The calls the program meets outside its templates. */
    ghost const roots: set<Request>
    var done: set<string>
    var emitted: seq<Instance>
    var field: Option<Field>
    /** Copies begun and not yet emitted. */
    ghost var open: set<string>

    ghost predicate Valid()
      reads this
    {
      && SourceNamed(source, names) && FieldOk(field, names)
      && done <= Universe(source.generics, names)
      && done == NamesOf(emitted) + open && open !! NamesOf(emitted) && Distinct(emitted)
      && forall s | s in emitted :: Faithful(source, roots, s) && LinesSettled(s.body, source.generics.Keys, done)
    }

    /** How many copies there can still be. */
    ghost function Left(): nat
      reads this
    {
      |Universe(source.generics, names) - done|
    }

    constructor (source: Source, ghost names: set<string>, ghost roots: set<Request>)
      requires SourceNamed(source, names)
      ensures Valid() && this.source == source && this.names == names && this.roots == roots
      ensures done == {} && emitted == [] && open == {} && field == None
    {
      this.source, this.names, this.roots := source, names, roots;
      done, emitted, open, field := {}, [], {}, None;
    }

    /** More copies, the same frames. */
    twostate predicate Grown()
      reads this
    {
      Valid() && old(done) <= done && old(emitted) <= emitted && open == old(open) && field == old(field)
    }

    /** There is a copy of this name, made as `r` asks. */
    ghost predicate Made(name: string, r: Request)
      reads this
    {
      exists s :: s in emitted && s.name == name && s.origin == r
    }

    /** The calls in `rs` are met. */
    ghost predicate Meets(rs: set<Request>) {
      AllReached(source, roots, rs)
    }

    lemma MeetsPart(rs: set<Request>, part: set<Request>)
      requires Meets(rs) && part <= rs
      ensures Meets(part)
    {
      hide Reached;
    }

    // ---- copies ----

    /** Bind a call of a generic function and make sure that its copy exists. */
    method SpecializeCall(name: string, typeArgs: seq<TypeArg>, args: seq<Node>, outer: Bindings, ghost e: Node)
      returns (copy: Option<string>)
      requires Valid() && name in source.generics && BindsTo(outer, names) && forall a | a in typeArgs ::
        NameOf(a) in names
      requires Meets(CallRequests(source, name, typeArgs, args, outer, field))
      modifies this
      ensures copy.Some? ==> Grown() && copy.value in done
      ensures copy.Some? && copy.value !in old(done) ==>
                Bind(source, source.generics[name], typeArgs, args, outer, old(field)).Some?
                && Made(copy.value, Request.Request(name,
                  Bind(source, source.generics[name], typeArgs, args, outer, old(field)).value, old(field)))
      ensures copy.Some? ==> copy == CopyName(source, name, typeArgs, args, outer, old(field))
      ensures copy.Some? && typeArgs != [] && AllDifferent(source.generics[name].typeParams) ==>
        |typeArgs| == |source.generics[name].typeParams| && copy.value == Spelled(name, MeantAll(typeArgs, outer))
      ensures copy.None? ==> CopyName(source, name, typeArgs, args, outer, old(field)) == None || Stuck(source, roots)
      decreases Left(), e, 1
    {
      hide Valid, Bind, BindsTo, Reached, Stuck, Mangle;
      var t := source.generics[name];
      ValidNamed();
      var bind := Bind(source, t, typeArgs, args, outer, field);
      if bind.None? {
        return None;
      }
      BindNamed(source, t, typeArgs, args, outer, field, names);
      var types := Chosen(t.typeParams, bind.value);
      ghost var r := Request.Request(name, bind.value, field);
      assert r in CallRequests(source, name, typeArgs, args, outer, field);
      var ok := EnsureSpecialization(name, bind.value, types, r, e);
      copy := if ok then Some(Mangle(name, types)) else None;
      if typeArgs != [] && AllDifferent(t.typeParams) {
        ExplicitCopy(source, name, typeArgs, args, outer, old(field));
      }
    }

    lemma ValidNamed()
      requires Valid()
      ensures SourceNamed(source, names) && FieldOk(field, names)
    {
    }

    lemma TemplateNamed(name: string, bind: Bindings, types: seq<string>)
      requires Valid() && name in source.generics && BindsTo(bind, names)
      requires (forall x | x in source.generics[name].typeParams :: x in bind)
        && types == Chosen(source.generics[name].typeParams, bind)
      ensures LinesNamed(source.generics[name].body, names) && Mangle(name, types) in Universe(source.generics, names)
        && open <= done
    {
      hide LinesNamed, LinesSettled, Mangle, Universe, Distinct, FieldOk;
      forall n | n in types
        ensures n in names
      {
        var i: nat :| i < |types| && types[i] == n;
        assert source.generics[name].typeParams[i] in bind;
      }
      InUniverse(source.generics, names, name, types);
    }

    lemma ObjectNamed(o: string)
      requires Valid() && o in source.objects
      ensures FieldsNamed(source.objects[o], names)
    {
      hide FieldsNamed, LinesNamed, LinesSettled, Universe, Distinct, FieldOk;
    }

    /** Copies are made once; a failure is a call that is met and has no copy. */
    method EnsureSpecialization(name: string, bind: Bindings, types: seq<string>, ghost r: Request, ghost e: Node)
      returns (ok: bool)
      requires Valid() && name in source.generics && BindsTo(bind, names)
      requires (forall x | x in source.generics[name].typeParams :: x in bind)
        && types == Chosen(source.generics[name].typeParams, bind)
      requires r == Request.Request(name, bind, field) && Reached(source, roots, r)
      modifies this
      ensures if ok then Grown() && Mangle(name, types) in done else Stuck(source, roots)
      ensures ok && Mangle(name, types) !in old(done) ==> Made(Mangle(name, types), r)
      decreases Left(), e, 0
    {
      hide Meets, Stuck, Valid, BindsTo, Mangle, Universe, Seeded, LinesNamed, LinesSettled, Chosen, Reached,
        BlockRequests, BlockLowered;
      var t, mangled := source.generics[name], Mangle(name, types);
      if mangled in done {
        return true;
      }
      TemplateNamed(name, bind, types);
      Begin(mangled);
      Smaller(Universe(source.generics, names), old(done), done);
      BodyKnown(r);
      var origin := Request.Request(name, bind, field);
      var body := LowerBlock(t.body, Seeded(bind, t.params), bind);
      if body.None? {
        NowStuck(r);
        return false;
      }
      Finish(Instance.Instance(mangled, origin, body.value));
      assert emitted[|emitted| - 1].origin == r;
      ok := true;
    }

    lemma BodyKnown(r: Request)
      requires Reached(source, roots, r) && r.name in source.generics
      ensures Meets(BodyRequests(source, r))
    {
      hide Reached, BodyRequests;
      forall next | next in BodyRequests(source, r)
        ensures Reached(source, roots, next)
      {
        ReachedNext(source, roots, r, next);
      }
    }

    lemma NowStuck(r: Request)
      requires Reached(source, roots, r) && r.name in source.generics
      ensures CopyOf(source, r) == None ==> Stuck(source, roots)
    {
      hide Reached, CopyOf;
    }

    method Begin(mangled: string)
      requires Valid() && mangled !in done && mangled in Universe(source.generics, names)
      modifies this
      ensures Valid() && done == old(done) + {mangled} && open == old(open) + {mangled} && field == old(field)
        && emitted == old(emitted)
    {
      forall s | s in emitted
        ensures LinesSettled(s.body, source.generics.Keys, done + {mangled})
      {
        LinesStill(s.body, source.generics.Keys, done, done + {mangled});
      }
      done := done + {mangled};
      open := open + {mangled};
    }

    method Finish(s: Instance)
      requires Valid() && s.name in open && Faithful(source, roots, s)
        && LinesSettled(s.body, source.generics.Keys, done)
      modifies this
      ensures Valid() && done == old(done) && open == old(open) - {s.name} && field == old(field)
        && emitted == old(emitted) + [s]
    {
      hide LinesSettled, Faithful, Universe, SourceNamed, FieldOk;
      emitted := emitted + [s];
      open := open - {s.name};
      assert NamesOf(emitted) == NamesOf(old(emitted)) + {s.name};
    }

    // ---- lowering a copy's body ----

    method LowerNode(e: Node, env: Env, outer: Bindings) returns (r: Option<Node>)
      requires Valid() && BindsTo(outer, names) && NodeNamed(e, names)
      requires Meets(NodeRequests(source, e, Place(env, outer, field)))
      modifies this
      ensures r.Some? ==> Grown() && NodeSettled(r.value, source.generics.Keys, done)
      ensures r.Some? ==> r == NodeLowered(source, e, Place(env, outer, old(field)))
      ensures r.None? ==> NodeLowered(source, e, Place(env, outer, old(field))) == None || Stuck(source, roots)
      decreases Left(), e, 3
    {
      hide Valid, BindsTo, Meets, Stuck, NodesRequests, CallRequests, CopyName, Universe, NodesLowered, NodesNamed,
        NodesSettled, Made;
      ghost var at := Place(env, outer, field);
      match e {
        case Apply(callee, typeArgs, args) =>
          MeetsPart(NodeRequests(source, e, at), NodesRequests(source, args, at));
          var lowered := LowerNodes(args, env, outer);
          if lowered.None? {
            return None;
          }
          if callee in source.generics {
            Smaller(Universe(source.generics, names), old(done), done);
            ghost var was := done;
            MeetsPart(NodeRequests(source, e, at), CallRequests(source, callee, typeArgs, lowered.value, outer, field));
            var copy := SpecializeCall(callee, typeArgs, lowered.value, outer, e);
            if copy.None? {
              return None;
            }
            NodesStill(lowered.value, source.generics.Keys, was, done);
            r := Some(Node.Apply(copy.value, [], lowered.value));
          } else {
            r := Some(Node.Apply(callee, typeArgs, lowered.value));
          }
        case Parts(seen, parts) =>
          MeetsPart(NodeRequests(source, e, at), NodesRequests(source, parts, at));
          var lowered := LowerNodes(parts, env, outer);
          r := if lowered.None? then None else Some(Parts(seen, lowered.value));
        case FieldOf(base, member) =>
          if base in env && env[base].FieldItem? && member == "name" {
            r := Some(Quoted(env[base].field.name));
          } else if base in env && env[base].FieldItem? && member == "type_name" {
            r := Some(Quoted(env[base].field.typeName));
          } else {
            r := Some(e);
          }
        case _ => r := Some(e);
      }
    }

    method LowerNodes(es: seq<Node>, env: Env, outer: Bindings) returns (r: Option<seq<Node>>)
      requires Valid() && BindsTo(outer, names) && NodesNamed(es, names)
      requires Meets(NodesRequests(source, es, Place(env, outer, field)))
      modifies this
      ensures r.Some? ==> Grown() && NodesSettled(r.value, source.generics.Keys, done)
      ensures r.Some? ==> r == NodesLowered(source, es, Place(env, outer, old(field)))
      ensures r.None? ==> NodesLowered(source, es, Place(env, outer, old(field))) == None || Stuck(source, roots)
      decreases Left(), es, 2
    {
      hide Valid, BindsTo, Meets, Stuck, NodeRequests, Universe, NodeLowered, NodeNamed, NodeSettled;
      if es == [] {
        return Some([]);
      }
      ghost var at := Place(env, outer, field);
      MeetsPart(NodesRequests(source, es, at), NodeRequests(source, es[0], at));
      var first := LowerNode(es[0], env, outer);
      if first.None? {
        return None;
      }
      Smaller(Universe(source.generics, names), old(done), done);
      ghost var was := done;
      MeetsPart(NodesRequests(source, es, at), NodesRequests(source, es[1..], at));
      var rest := LowerNodes(es[1..], env, outer);
      if rest.None? {
        return None;
      }
      NodeStill(first.value, source.generics.Keys, was, done);
      r := Some([first.value] + rest.value);
    }

    method LowerBlock(ss: seq<Line>, env: Env, outer: Bindings) returns (r: Option<seq<Line>>)
      requires Valid() && BindsTo(outer, names) && LinesNamed(ss, names)
      requires Meets(BlockRequests(source, ss, Place(env, outer, field)))
      modifies this
      ensures r.Some? ==> Grown() && LinesSettled(r.value, source.generics.Keys, done)
      ensures r.Some? ==> r == BlockLowered(source, ss, Place(env, outer, old(field)))
      ensures r.None? ==> BlockLowered(source, ss, Place(env, outer, old(field))) == None || Stuck(source, roots)
      decreases Left(), ss, 4
    {
      hide Valid, BindsTo, Meets, Stuck, LineRequests, Universe, LineLowered, LineNamed, LineSettled, LinesSettled;
      if ss == [] {
        SettledNothing(source.generics.Keys, done);
        return Some([]);
      }
      ghost var at := Place(env, outer, field);
      MeetsPart(BlockRequests(source, ss, at), LineRequests(source, ss[0], at));
      var first, env1 := LowerLine(ss[0], env, outer);
      if first.None? {
        return None;
      }
      Smaller(Universe(source.generics, names), old(done), done);
      ghost var was := done;
      MeetsPart(BlockRequests(source, ss, at), BlockRequests(source, ss[1..], at.(env := env1)));
      var rest := LowerBlock(ss[1..], env1, outer);
      if rest.None? {
        return None;
      }
      LinesStill(first.value, source.generics.Keys, was, done);
      LinesJoin(first.value, rest.value, source.generics.Keys, done);
      r := Some(first.value + rest.value);
    }

    method LowerLine(s: Line, env: Env, outer: Bindings) returns (r: Option<seq<Line>>, env1: Env)
      requires Valid() && BindsTo(outer, names) && LineNamed(s, names)
      requires Meets(LineRequests(source, s, Place(env, outer, field)))
      modifies this
      ensures r.Some? ==> Grown() && LinesSettled(r.value, source.generics.Keys, done)
      ensures r.Some? ==> r == LineLowered(source, s, Place(env, outer, old(field))).0
      ensures r.None? ==> LineLowered(source, s, Place(env, outer, old(field))).0 == None || Stuck(source, roots)
      ensures env1 == LineLowered(source, s, Place(env, outer, old(field))).1
      decreases Left(), s, 3
    {
      hide Valid, BindsTo, Meets, Stuck;
      hide EachLowered, ArmLowered, PiecesLowered, LinesSettled, PiecesSettled, Universe, FieldsNamed, Stuck, Reflected;
      env1, r := env, None;
      SettledNothing(source.generics.Keys, done);
      match s {
        case Do(seen, pieces) =>
          var lowered := LowerPieces(pieces, env, outer);
          if lowered.None? {
            return None, env;
          }
          SettledDo(seen, lowered.value, source.generics.Keys, done);
          r := Some([Do(seen, lowered.value)]);
        case Reflect(target, arg) =>
          var art := Reflected(source, env, arg);
          if art.Some? {
            r, env1 := Some([]), env[target := art.value];
          }
        case ListMembers(target, arg) =>
          if arg in env && env[arg].Artifact? && env[arg].name in source.objects {
            r, env1 := Some([]), env[target := FieldList(env[arg].name)];
          }
        case ForEach(item, coll, body) =>
          if coll in env && env[coll].FieldList? && env[coll].name in source.objects {
            ObjectNamed(env[coll].name);
            r := LowerForEach(source.objects[env[coll].name], item, body, env, outer, s);
          }
        case ByKind(scrutinee, arms) =>
          if scrutinee in env && env[scrutinee].FieldItem? {
            r := LowerByKind(arms, env[scrutinee].field.kind, env, outer);
          }
      }
    }

    method LowerByKind(arms: seq<Arm>, kind: string, env: Env, outer: Bindings) returns (r: Option<seq<Line>>)
      requires Valid() && BindsTo(outer, names) && ArmsNamed(arms, names)
      requires Meets(ArmRequests(source, arms, kind, Place(env, outer, field)))
      modifies this
      ensures r.Some? ==> Grown() && LinesSettled(r.value, source.generics.Keys, done)
      ensures r.Some? ==> r == ArmLowered(source, arms, kind, Place(env, outer, old(field)))
      ensures r.None? ==> ArmLowered(source, arms, kind, Place(env, outer, old(field))) == None || Stuck(source, roots)
      decreases Left(), arms, 4
    {
      hide Meets, Stuck, Valid, BindsTo, ArmFor, ArmsNamed, NodeNamed, NodeSettled, LinesSettled, Universe, NamesOf;
      ArmNamed(arms, kind, None, names);
      var arm := ArmFor(arms, kind, None);
      if arm.None? {
        SettledNothing(source.generics.Keys, done);
        return Some([]);
      }
      ghost var i :| 0 <= i < |arms| && arms[i].body == arm.value;
      var e := LowerNode(arm.value, env, outer);
      if e.None? {
        return None;
      }
      SettledOne(e.value, source.generics.Keys, done);
      r := Some([Do(true, [Expression(e.value)])]);
    }

    /** The body once for each field. */
    method LowerForEach(fields: seq<Field>, item: string, body: seq<Line>, env: Env, outer: Bindings, ghost s: Line)
      returns (r: Option<seq<Line>>)
      requires Valid() && BindsTo(outer, names) && LinesNamed(body, names) && FieldsNamed(fields, names) && s.ForEach?
        && s.body == body
      requires Meets(EachRequests(source, fields, item, body, Place(env, outer, field)))
      modifies this
      ensures r.Some? ==> Grown() && LinesSettled(r.value, source.generics.Keys, done)
      ensures r.Some? ==> r == EachLowered(source, fields, item, body, Place(env, outer, old(field)))
      ensures r.None? ==>
        EachLowered(source, fields, item, body, Place(env, outer, old(field))) == None || Stuck(source, roots)
      decreases Left(), s, 2
    {
      hide Meets, Stuck, Valid, BindsTo, LinesNamed, LinesSettled, Universe, BlockLowered, EachLowered;
      var out: seq<Line> := [];
      ghost var at := Place(env, outer, field);
      EachOver(fields, item, body, at);
      SettledNothing(source.generics.Keys, done);
      for i := 0 to |fields|
        invariant Grown() && LinesSettled(out, source.generics.Keys, done)
        invariant EachLowered(source, fields[..i], item, body, at) == Some(out)
      {
        Smaller(Universe(source.generics, names), old(done), done);
        ghost var was := done;
        assert fields[i] in fields;
        EachStep(source, fields, i, item, body, at, out);
        EachMeets(source, fields, item, body, at, i);
        MeetsPart(EachRequests(source, fields, item, body, at),
                  BlockRequests(source, body, Place(env[item := FieldItem(fields[i])], outer, Some(fields[i]))));
        var lowered := LowerOnce(fields[i], item, body, env, outer, s);
        if lowered.None? {
          return None;
        }
        LinesStill(out, source.generics.Keys, was, done);
        LinesJoin(out, lowered.value, source.generics.Keys, done);
        out := out + lowered.value;
      }
      r := Some(out);
    }

    lemma EachOver(fields: seq<Field>, item: string, body: seq<Line>, at: Place)
      ensures EachLowered(source, fields[..0], item, body, at) == Some([]) && fields[..|fields|] == fields
    {
    }

    /** The body for one field, which is the current one meanwhile. */
    method LowerOnce(f: Field, item: string, body: seq<Line>, env: Env, outer: Bindings, ghost s: Line)
      returns (r: Option<seq<Line>>)
      requires Valid() && BindsTo(outer, names) && LinesNamed(body, names) && f.typeName in names && s.ForEach?
        && s.body == body
      requires Meets(BlockRequests(source, body, Place(env[item := FieldItem(f)], outer, Some(f))))
      modifies this
      ensures r.Some? ==> Grown() && LinesSettled(r.value, source.generics.Keys, done)
      ensures r.Some? ==> r == BlockLowered(source, body, Place(env[item := FieldItem(f)], outer, Some(f)))
      ensures r.None? ==>
        BlockLowered(source, body, Place(env[item := FieldItem(f)], outer, Some(f))) == None || Stuck(source, roots)
      decreases Left(), s, 1
    {
      hide BindsTo, LinesNamed, LinesSettled, Universe, SourceNamed, Distinct, NamesOf, Mangle;
      var previous := field;
      field := Some(f);
      r := LowerBlock(body, env[item := FieldItem(f)], outer);
      if r.Some? {
        field := previous;
      }
    }

    method LowerPieces(ps: seq<Piece>, env: Env, outer: Bindings) returns (r: Option<seq<Piece>>)
      requires Valid() && BindsTo(outer, names) && PiecesNamed(ps, names)
      requires Meets(PiecesRequests(source, ps, Place(env, outer, field)))
      modifies this
      ensures r.Some? ==> Grown() && PiecesSettled(r.value, source.generics.Keys, done)
      ensures r.Some? ==> r == PiecesLowered(source, ps, Place(env, outer, old(field)))
      ensures r.None? ==> PiecesLowered(source, ps, Place(env, outer, old(field))) == None || Stuck(source, roots)
      decreases Left(), ps, 5
    {
      hide Valid, BindsTo, Meets, Stuck, PieceRequests, Universe, PieceLowered, NodeNamed, LinesNamed, NodeSettled,
        LinesSettled;
      if ps == [] {
        return Some([]);
      }
      ghost var at := Place(env, outer, field);
      MeetsPart(PiecesRequests(source, ps, at), PieceRequests(source, ps[0], at));
      var first := LowerPiece(ps[0], env, outer);
      if first.None? {
        return None;
      }
      Smaller(Universe(source.generics, names), old(done), done);
      ghost var was := done;
      MeetsPart(PiecesRequests(source, ps, at), PiecesRequests(source, ps[1..], at));
      var rest := LowerPieces(ps[1..], env, outer);
      if rest.None? {
        return None;
      }
      PiecesStill([first.value], source.generics.Keys, was, done);
      PiecesJoin([first.value], rest.value, source.generics.Keys, done);
      r := Some([first.value] + rest.value);
    }

    method LowerPiece(p: Piece, env: Env, outer: Bindings) returns (r: Option<Piece>)
      requires Valid() && BindsTo(outer, names) && PiecesNamed([p], names)
      requires Meets(PieceRequests(source, p, Place(env, outer, field)))
      modifies this
      ensures r.Some? ==> Grown() && PiecesSettled([r.value], source.generics.Keys, done)
      ensures r.Some? ==> r == PieceLowered(source, p, Place(env, outer, old(field)))
      ensures r.None? ==> PieceLowered(source, p, Place(env, outer, old(field))) == None || Stuck(source, roots)
      decreases Left(), p, 4
    {
      hide Valid, BindsTo, Meets, Stuck, Universe, NodeLowered, BlockLowered, NodeRequests, BlockRequests, NodeNamed,
        LinesNamed, NodeSettled, LinesSettled;
      match p {
        case Expression(e) =>
          var lowered := LowerNode(e, env, outer);
          r := if lowered.None? then None else Some(Expression(lowered.value));
        case Nested(b) =>
          var lowered := LowerBlock(b, env, outer);
          r := if lowered.None? then None else Some(Nested(lowered.value));
      }
    }

    // ---- rewriting ordinary functions ----

    method RewriteNode(e: Node) returns (r: Option<Node>)
      requires Valid() && field == None && NodeNamed(e, names)
      requires Meets(NodeFinds(source, e))
      modifies this
      ensures r.Some? ==> Grown() && r == NodeRewritten(source, e)
      ensures r.Some? ==> NodeOverlooked(e, source.generics.Keys) || NodeSettled(r.value, source.generics.Keys, done)
      ensures r.None? ==> NodeRewritten(source, e) == None || Stuck(source, roots)
      decreases e, 1
    {
      hide Valid, BindsTo, Meets, Stuck;
      match e {
        case Apply(callee, typeArgs, args) =>
          MeetsPart(NodeFinds(source, e), NodesFind(source, args));
          var rewritten := RewriteNodes(args);
          if rewritten.None? {
            return None;
          }
          if callee in source.generics {
            ghost var was := done;
            BindsNothing();
            MeetsPart(NodeFinds(source, e), CallRequests(source, callee, typeArgs, rewritten.value, map[], None));
            var copy := SpecializeCall(callee, typeArgs, rewritten.value, map[], e);
            if copy.None? {
              return None;
            }
            if !NodesOverlooked(args, source.generics.Keys) {
              NodesStill(rewritten.value, source.generics.Keys, was, done);
            }
            r := Some(Node.Apply(copy.value, [], rewritten.value));
          } else {
            r := Some(Node.Apply(callee, typeArgs, rewritten.value));
          }
        case Parts(true, parts) =>
          var rewritten := RewriteNodes(parts);
          r := if rewritten.None? then None else Some(Parts(true, rewritten.value));
        case Parts(false, parts) =>
          if NodesSettled(parts, source.generics.Keys, {}) {
            NodesStill(parts, source.generics.Keys, {}, done);
          }
          r := Some(e);
        case _ => r := Some(e);
      }
    }

    lemma BindsNothing()
      ensures BindsTo(map[], names)
    {
    }

    method RewriteNodes(es: seq<Node>) returns (r: Option<seq<Node>>)
      requires Valid() && field == None && NodesNamed(es, names)
      requires Meets(NodesFind(source, es))
      modifies this
      ensures r.Some? ==> Grown() && r == NodesRewritten(source, es)
      ensures r.Some? ==> NodesOverlooked(es, source.generics.Keys) || NodesSettled(r.value, source.generics.Keys, done)
      ensures r.None? ==> NodesRewritten(source, es) == None || Stuck(source, roots)
      decreases es, 0
    {
      hide Valid, Meets, Stuck;
      if es == [] {
        return Some([]);
      }
      MeetsPart(NodesFind(source, es), NodeFinds(source, es[0]));
      var first := RewriteNode(es[0]);
      if first.None? {
        return None;
      }
      ghost var was := done;
      MeetsPart(NodesFind(source, es), NodesFind(source, es[1..]));
      var rest := RewriteNodes(es[1..]);
      if rest.None? {
        return None;
      }
      if !NodeOverlooked(es[0], source.generics.Keys) {
        NodeStill(first.value, source.generics.Keys, was, done);
      }
      r := Some([first.value] + rest.value);
    }

    method RewriteLine(s: Line) returns (r: Option<Line>)
      requires Valid() && field == None && LineNamed(s, names)
      requires Meets(LineFinds(source, s))
      modifies this
      ensures r.Some? ==> Grown() && r == LineRewritten(source, s)
      ensures r.Some? ==> LineOverlooked(s, source.generics.Keys) || LineSettled(r.value, source.generics.Keys, done)
      ensures r.None? ==> LineRewritten(source, s) == None || Stuck(source, roots)
      decreases s, 3
    {
      hide Valid, Meets, Stuck;
      if s.Do? && s.seen {
        var rewritten := RewritePieces(s.pieces);
        return if rewritten.None? then None else Some(Do(true, rewritten.value));
      }
      if s.Do? && PiecesSettled(s.pieces, source.generics.Keys, {}) {
        PiecesStill(s.pieces, source.generics.Keys, {}, done);
      }
      r := Some(s);
    }

    method RewritePieces(ps: seq<Piece>) returns (r: Option<seq<Piece>>)
      requires Valid() && field == None && PiecesNamed(ps, names)
      requires Meets(PiecesFind(source, ps))
      modifies this
      ensures r.Some? ==> Grown() && r == PiecesRewritten(source, ps)
      ensures r.Some? ==>
        PiecesOverlooked(ps, source.generics.Keys) || PiecesSettled(r.value, source.generics.Keys, done)
      ensures r.None? ==> PiecesRewritten(source, ps) == None || Stuck(source, roots)
      decreases ps, 2
    {
      hide Valid, Meets, Stuck;
      if ps == [] {
        return Some([]);
      }
      MeetsPart(PiecesFind(source, ps), PieceFinds(source, ps[0]));
      var first := RewritePiece(ps[0]);
      if first.None? {
        return None;
      }
      ghost var was := done;
      MeetsPart(PiecesFind(source, ps), PiecesFind(source, ps[1..]));
      var rest := RewritePieces(ps[1..]);
      if rest.None? {
        return None;
      }
      if !PiecesOverlooked(ps, source.generics.Keys) {
        PiecesStill([first.value], source.generics.Keys, was, done);
        PiecesJoin([first.value], rest.value, source.generics.Keys, done);
      }
      r := Some([first.value] + rest.value);
    }

    method RewritePiece(p: Piece) returns (r: Option<Piece>)
      requires Valid() && field == None && PiecesNamed([p], names)
      requires Meets(PieceFinds(source, p))
      modifies this
      ensures r.Some? ==> Grown() && r == PieceRewritten(source, p)
      ensures r.Some? ==>
        PiecesOverlooked([p], source.generics.Keys) || PiecesSettled([r.value], source.generics.Keys, done)
      ensures r.None? ==> PieceRewritten(source, p) == None || Stuck(source, roots)
      decreases p, 1
    {
      hide Valid, Meets, Stuck;
      match p {
        case Expression(e) =>
          var x := RewriteNode(e);
          r := if x.None? then None else Some(Expression(x.value));
        case Nested(b) =>
          var x := RewriteLines(b);
          r := if x.None? then None else Some(Nested(x.value));
      }
    }

    method RewriteLines(ss: seq<Line>) returns (r: Option<seq<Line>>)
      requires Valid() && field == None && LinesNamed(ss, names)
      requires Meets(LinesFind(source, ss))
      modifies this
      ensures r.Some? ==> Grown() && r == LinesRewritten(source, ss)
      ensures r.Some? ==> LinesOverlooked(ss, source.generics.Keys) || LinesSettled(r.value, source.generics.Keys, done)
      ensures r.None? ==> LinesRewritten(source, ss) == None || Stuck(source, roots)
      decreases ss, 0
    {
      hide Valid, Meets, Stuck;
      if ss == [] {
        return Some([]);
      }
      MeetsPart(LinesFind(source, ss), LineFinds(source, ss[0]));
      var first := RewriteLine(ss[0]);
      if first.None? {
        return None;
      }
      ghost var was := done;
      MeetsPart(LinesFind(source, ss), LinesFind(source, ss[1..]));
      var rest := RewriteLines(ss[1..]);
      if rest.None? {
        return None;
      }
      if !LineOverlooked(ss[0], source.generics.Keys) {
        PiecesStill(first.value.pieces, source.generics.Keys, was, done);
      }
      r := Some([first.value] + rest.value);
    }

    method RewriteUnits(us: seq<Unit>) returns (r: Option<seq<Unit>>)
      requires Valid() && field == None && UnitsNamed(us, names)
      requires Meets(UnitsFind(source, us))
      modifies this
      ensures r.Some? ==>
        Grown() && r == UnitsRewritten(source, us) && Treated(source, Functions(us), Functions(r.value), done)
      ensures r.None? ==> UnitsRewritten(source, us) == None || Stuck(source, roots)
      decreases us
    {
      hide Valid, LinesOverlooked, LinesSettled, Stuck;
      if us == [] {
        return Some([]);
      }
      var first: Unit;
      match us[0] {
        case Ordinary(b) =>
          MeetsPart(UnitsFind(source, us), LinesFind(source, b));
          var x := RewriteLines(b);
          if x.None? {
            return None;
          }
          first := Ordinary(x.value);
        case TopLevel(l) =>
          MeetsPart(UnitsFind(source, us), LineFinds(source, l));
          var x := RewriteLine(l);
          if x.None? {
            return None;
          }
          first := TopLevel(x.value);
      }
      ghost var was := done;
      MeetsPart(UnitsFind(source, us), UnitsFind(source, us[1..]));
      var rest := RewriteUnits(us[1..]);
      if rest.None? {
        return None;
      }
      r := Some([first] + rest.value);
      assert r.value[1..] == rest.value;
      if us[0].Ordinary? {
        if !LinesOverlooked(us[0].body, source.generics.Keys) {
          LinesStill(first.body, source.generics.Keys, was, done);
        }
        TreatedMore(source, us[0].body, Functions(us[1..]), first.body, Functions(rest.value), done);
      }
    }

    /** Statements at the top level are run at compile time too, in one environment. */
    method LowerTop(us: seq<Unit>, env: Env) returns (r: Option<seq<Line>>)
      requires Valid() && field == None && UnitsNamed(us, names)
      requires Meets(TopRequests(source, us, env))
      modifies this
      ensures r.Some? ==>
        Grown() && r == TopLowered(source, us, env) && LinesSettled(r.value, source.generics.Keys, done)
      ensures r.None? ==> TopLowered(source, us, env) == None || Stuck(source, roots)
      decreases us
    {
      hide Meets, Stuck, Valid, BindsTo, LinesSettled, LineLowered;
      if us == [] {
        SettledNothing(source.generics.Keys, done);
        return Some([]);
      }
      if us[0].Ordinary? {
        r := LowerTop(us[1..], env);
      } else {
        BindsNothing();
        MeetsPart(TopRequests(source, us, env), LineRequests(source, us[0].line, Place(env, map[], None)));
        var first, env1 := LowerLine(us[0].line, env, map[]);
        if first.None? {
          return None;
        }
        ghost var was := done;
        MeetsPart(TopRequests(source, us, env), TopRequests(source, us[1..], env1));
        var rest := LowerTop(us[1..], env1);
        if rest.None? {
          return None;
        }
        LinesStill(first.value, source.generics.Keys, was, done);
        LinesJoin(first.value, rest.value, source.generics.Keys, done);
        r := Some(first.value + rest.value);
      }
    }
  }

  /** What the call is bound to, and that the program meets it. */
  lemma AskNamed(n: string, roots: set<Request>)
    requires AskFor(n) in roots
    ensures
      var p, field := Asking(), Some(Field("f", "object", n));
      && Bind(p, p.generics["h"], [KindType("int")], [], map[], field) == Some(map["S" := "int"])
      && CopyName(p, "h", [KindType("int")], [], map[], field) == Some("h__int")
      && AllReached(p, roots, CallRequests(p, "h", [KindType("int")], [], map[], field))
  {
    var p, field := Asking(), Some(Field("f", "object", n));
    assert Explicit(["S"], [KindType("int")], map[]) == map["S" := "int"];
    assert Chosen(["S"], map["S" := "int"]) == ["int"];
    One("h", "int");
    assert "h" + "__" + "int" == "h__int";
    ReachedRoot(p, roots, AskFor(n));
  }

  /** One caller asks for `h<int>()` while a field of an object `n` is current. */
  method Ask(expander: Expander, n: string, ghost first: string, ghost second: string) returns (name: string)
    requires expander.source == Asking() && expander.roots == {AskFor(first), AskFor(second)} && n in {first, second}
    requires expander.Valid() && {"int", n} <= expander.names && expander.open == {}
    modifies expander
    ensures name == "h__int" && expander.Valid() && expander.open == {} && name in NamesOf(expander.emitted)
    ensures old(expander.emitted) <= expander.emitted
    ensures name !in NamesOf(old(expander.emitted)) ==> expander.Made(name, AskFor(n))
  {
    hide Bind, CopyName, CallRequests, Stuck, Reached, BindsTo, Mangle, SourceNamed, Universe, Faithful, LinesSettled;
    expander.field := Some(Field("f", "object", n));
    AskNamed(n, expander.roots);
    AskingNotStuck(first, second);
    expander.BindsNothing();
    var copy := expander.SpecializeCall("h", [KindType("int")], [], map[], Name("h"));
    name := copy.value;
  }

  /** Two callers ask for `h<int>()`, one while a field of an object `first` is current, then
      one while a field of an object `second` is. Both get the one copy, and it calls the copy
      of `g` for `first`. */
  method FirstAskerDecides(first: string, second: string) returns (one: string, other: string, copies: seq<Instance>)
    ensures one == other == "h__int"
    ensures exists s ::
      s in copies && s.name == one && s.body == [Do(true, [Expression(Node.Apply("g__" + first, [], []))])]
    ensures forall s, t | s in copies && t in copies && s.name == t.name :: s == t
  {
    hide Stuck, Reached, SourceNamed, SourceNames, Universe, LinesSettled, CopyBody;
    var p := Asking();
    ghost var names := SourceNames(p) + {"int", first, second};
    SourceIsNamed(p, names);
    var expander := new Expander(p, names, {AskFor(first), AskFor(second)});
    one := Ask(expander, first, first, second);
    other := Ask(expander, second, first, second);
    copies := expander.emitted;
    AskerMatters(first);
  }

  /** The whole expansion. It ends for every program. What it gives is closed: the copies
      have different names, each is its template's copy, and no call of a template is left
      at the top level or in a copy; in an ordinary function one is left exactly where the
      rewriting does not look. */
  method Expand(source: Source, units: seq<Unit>) returns (r: Option<Expanded>)
    ensures r.Some? ==> Distinct(r.value.copies) && Closed(source, Roots(source, units), r.value.copies)
    ensures r.Some? ==>
      UnitsRewritten(source, units).Some? && r.value.functions == Functions(UnitsRewritten(source, units).value)
    ensures r.Some? ==> TopLowered(source, UnitsRewritten(source, units).value, map[]) == Some(r.value.top)
    ensures r.Some? ==> LinesSettled(r.value.top, source.generics.Keys, NamesOf(r.value.copies))
    ensures r.Some? ==> Treated(source, Functions(units), r.value.functions, NamesOf(r.value.copies))
    ensures r.None? ==>
              var before := UnitsRewritten(source, units);
              before == None || TopLowered(source, before.value, map[]) == None || Stuck(source, Roots(source, units))
  {
    hide AllReached, UnitsFind, TopRequests, LinesSettled, Stuck, UnitsNamed, UnitsNames, SourceNames, SourceNamed,
      UnitsRewritten, TopLowered;
    ghost var names := SourceNames(source) + UnitsNames(units);
    SourceIsNamed(source, names);
    assert UnitsNames(units) <= names;
    ghost var roots := Roots(source, units);
    var expander := new Expander(source, names, roots);
    RootsKnown(source, roots, UnitsFind(source, units));
    var rewritten := expander.RewriteUnits(units);
    if rewritten.None? {
      return None;
    }
    UnitsStayNamed(source, units, names);
    ghost var was := expander.done;
    RootsKnown(source, roots, TopRequests(source, rewritten.value, map[]));
    var top := expander.LowerTop(rewritten.value, map[]);
    if top.None? {
      return None;
    }
    TreatedStill(source, Functions(units), Functions(rewritten.value), was, expander.done);
    assert expander.done == NamesOf(expander.emitted);
    r := Some(Expanded(Functions(rewritten.value), top.value, expander.emitted));
  }

  lemma RootsKnown(source: Source, roots: set<Request>, some: set<Request>)
    requires some <= roots
    ensures AllReached(source, roots, some)
  {
    hide Reached;
    forall r | r in some
      ensures Reached(source, roots, r)
    {
      ReachedRoot(source, roots, r);
    }
  }

  /** Every copy was asked for, is its template's copy, and calls no template. */
  ghost predicate Closed(source: Source, roots: set<Request>, copies: seq<Instance>) {
    forall s | s in copies :: Faithful(source, roots, s) && LinesSettled(s.body, source.generics.Keys, NamesOf(copies))
  }

  /** Each function is rewritten, and settled unless the rewriting overlooks something. */
  predicate Treated(source: Source, before: seq<seq<Line>>, after: seq<seq<Line>>, done: set<string>) {
    && |after| == |before|
    && forall i | 0 <= i < |before| ::
         LinesRewritten(source, before[i]) == Some(after[i])
         && (LinesOverlooked(before[i], source.generics.Keys) || LinesSettled(after[i], source.generics.Keys, done))
  }

  lemma TreatedMore(source: Source, b: seq<Line>, before: seq<seq<Line>>, a: seq<Line>, after: seq<seq<Line>>,
      done: set<string>)
    requires LinesRewritten(source, b) == Some(a)
    requires LinesOverlooked(b, source.generics.Keys) || LinesSettled(a, source.generics.Keys, done)
    requires Treated(source, before, after, done)
    ensures Treated(source, [b] + before, [a] + after, done)
  {
  }

  lemma TreatedStill(source: Source, before: seq<seq<Line>>, after: seq<seq<Line>>, done: set<string>,
      more: set<string>)
    requires Treated(source, before, after, done) && done <= more
    ensures Treated(source, before, after, more)
  {
    hide LinesSettled, LinesOverlooked, LinesRewritten;
    forall i | 0 <= i < |before| && LinesSettled(after[i], source.generics.Keys, done)
      ensures LinesSettled(after[i], source.generics.Keys, more)
    {
      LinesStill(after[i], source.generics.Keys, done, more);
    }
  }

  /** Where no copy has the name of a template, the rewriting settles exactly the functions
      in which it overlooks nothing. */
  lemma TreatedExactly(source: Source, before: seq<seq<Line>>, after: seq<seq<Line>>, done: set<string>, i: nat)
    requires Treated(source, before, after, done) && i < |before| && source.generics.Keys !! done
    ensures LinesSettled(after[i], source.generics.Keys, done) <==> !LinesOverlooked(before[i], source.generics.Keys)
  {
    hide LinesSettled, LinesOverlooked, LinesRewritten;
    if LinesOverlooked(before[i], source.generics.Keys) {
      LinesLeft(source, before[i], done);
    }
  }
}
