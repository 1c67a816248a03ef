/**
 * The mapping generator: for every message of a file, and depth-first for the
 * messages nested in it, a GetOpensearchMappings routine that fills a map from
 * each field's JSON name to its OpensearchMapping. A package-level set of
 * processed identifiers keeps any message from being generated twice.
 */
module Generator {
  import opened Wrappers
  import opened Protogen
  import opened OpensearchTypes
  import opened FieldMapper

  /** A statement of a generated routine: `falseBool := false`, or
      `mapping["<jsonName>"] = <mapping>`. */
  datatype Stmt = DeclFalseBool | Assign(jsonName: string, mapping: OpensearchMapping)

  /** The GetOpensearchMappings routine generated for one message. */
  datatype Routine = Routine(ident: Ident, body: seq<Stmt>)

  /** The generator's state: the processed set and the routines written so far. */
  datatype State = State(processed: set<Ident>, routines: seq<Routine>)

  // ---------------------------------------------------------------------------
  // The body of one routine.

  /** Some field of fs makes the routine declare `falseBool`. */
  predicate Declares(fs: seq<Field>) {
    exists i :: 0 <= i < |fs| && NeedsFalseBool(fs[i])
  }

  /** What the loop body writes for field f, given whether `falseBool` is declared already. */
  function FieldStmts(f: Field, declared: bool): seq<Stmt> {
    (if NeedsFalseBool(f) && !declared then [DeclFalseBool] else [])
    + (match FieldMapping(f) case Some(e) => [Assign(f.jsonName, e)] case None => [])
  }

  /** The statements generated for the fields fs, in declaration order. */
  function Body(fs: seq<Field>): seq<Stmt>
    decreases |fs|
  {
    if fs == [] then []
    else
      var init := fs[..|fs| - 1];
      Body(init) + FieldStmts(fs[|fs| - 1], Declares(init))
  }

  lemma BodyAppend(fs: seq<Field>, f: Field)
    ensures Body(fs + [f]) == Body(fs) + FieldStmts(f, Declares(fs))
  {
  }

  /** The map a routine with body b returns when it runs: each assignment
      overwrites the entry under its key. */
  function Entries(b: seq<Stmt>): map<string, OpensearchMapping>
    decreases |b|
  {
    if b == [] then map[]
    else
      var prev := Entries(b[..|b| - 1]);
      match b[|b| - 1]
      case DeclFalseBool => prev
      case Assign(k, e) => prev[k := e]
  }

  /** The JSON names of the fields that get an entry. */
  function MappedNames(fs: seq<Field>): set<string> {
    set i | 0 <= i < |fs| && FieldMapping(fs[i]).Some? :: fs[i].jsonName
  }

  /** Some assignment of b takes the address of `falseBool`. */
  predicate UsesFalseBool(b: seq<Stmt>) {
    exists j :: 0 <= j < |b| && b[j].Assign? && RefersFalseBool(b[j].mapping)
  }

  /** Every assignment that takes the address of `falseBool` comes after its declaration. */
  predicate DeclaredBeforeUse(b: seq<Stmt>) {
    forall j :: 0 <= j < |b| && b[j].Assign? && RefersFalseBool(b[j].mapping) ==>
      exists i :: 0 <= i < j && b[i] == DeclFalseBool
  }

  /** The routine for one message. */
  function RoutineFor(m: Message): Routine {
    Routine(m.ident, Body(m.fields))
  }

  /**
   * The statements of one routine, written field by field with the
   * `initializedFalseBool` flag of processMessage.
   */
  method EmitMappingRoutine(fields: seq<Field>) returns (body: seq<Stmt>)
    ensures body == Body(fields)
  {
    body := [];
    var initializedFalseBool := false;
    for i := 0 to |fields|
      invariant body == Body(fields[..i])
      invariant initializedFalseBool == Declares(fields[..i])
    {
      var ff := fields[i];
      assert fields[..i + 1] == fields[..i] + [ff];
      BodyAppend(fields[..i], ff);
      DeclaresLast(fields[..i + 1]);
      if NeedsFalseBool(ff) && !initializedFalseBool {
        body := body + [DeclFalseBool];
        initializedFalseBool := true;
      }
      match FieldMapping(ff) {
        case Some(e) => body := body + [Assign(ff.jsonName, e)];
        case None =>
      }
    }
    assert fields[..|fields|] == fields;
  }

  /** Appending one field's statements updates the entries as the Go map assignment does. */
  lemma EntriesAfterField(b: seq<Stmt>, f: Field, declared: bool)
    ensures Entries(b + FieldStmts(f, declared)) ==
      if FieldMapping(f).Some? then Entries(b)[f.jsonName := FieldMapping(f).value] else Entries(b)
  {
    var decl: seq<Stmt> := if NeedsFalseBool(f) && !declared then [DeclFalseBool] else [];
    var b' := b + decl;
    assert Entries(b') == Entries(b) by {
      if decl != [] {
        assert b'[..|b'| - 1] == b;
        assert b'[|b'| - 1] == DeclFalseBool;
      } else {
        assert b' == b;
      }
    }
    if FieldMapping(f).Some? {
      var a := Assign(f.jsonName, FieldMapping(f).value);
      assert b + FieldStmts(f, declared) == b' + [a];
      assert (b' + [a])[..|b' + [a]| - 1] == b';
    } else {
      assert b + FieldStmts(f, declared) == b';
    }
  }

  /** Every entry is keyed by a field's JSON name, and a field gets one exactly
      when the field mapper gives it a mapping. */
  lemma {:induction false} EntryKeys(fs: seq<Field>)
    ensures Entries(Body(fs)).Keys == MappedNames(fs)
    decreases |fs|
  {
    if fs != [] {
      var init, f := fs[..|fs| - 1], fs[|fs| - 1];
      EntryKeys(init);
      EntriesAfterField(Body(init), f, Declares(init));
      forall x | x in MappedNames(fs)
        ensures x in MappedNames(init) || (FieldMapping(f).Some? && x == f.jsonName)
      {
        var i :| 0 <= i < |fs| && FieldMapping(fs[i]).Some? && fs[i].jsonName == x;
        if i < |fs| - 1 {
          assert init[i] == fs[i];
        }
      }
      forall x | x in MappedNames(init)
        ensures x in MappedNames(fs)
      {
        var i :| 0 <= i < |init| && FieldMapping(init[i]).Some? && init[i].jsonName == x;
        assert fs[i] == init[i];
      }
      if FieldMapping(f).Some? {
        assert f.jsonName in MappedNames(fs) by { assert fs[|fs| - 1] == f; }
      }
    }
  }

  /** The entry under a mapped field's JSON name is that field's mapping, as long
      as no later field has the same JSON name. */
  lemma {:induction false} EntryValue(fs: seq<Field>, i: nat)
    requires i < |fs| && FieldMapping(fs[i]).Some?
    requires forall j :: i < j < |fs| ==> fs[j].jsonName != fs[i].jsonName
    ensures fs[i].jsonName in Entries(Body(fs))
    ensures Entries(Body(fs))[fs[i].jsonName] == FieldMapping(fs[i]).value
    decreases |fs|
  {
    var init, f := fs[..|fs| - 1], fs[|fs| - 1];
    EntriesAfterField(Body(init), f, Declares(init));
    if i < |fs| - 1 {
      assert init[i] == fs[i];
      EntryValue(init, i);
    }
  }

  /** A routine returns at most as many entries as the message has fields. */
  lemma {:induction false} EntryCount(fs: seq<Field>)
    ensures |Entries(Body(fs))| <= |fs|
    decreases |fs|
  {
    if fs != [] {
      var init, f := fs[..|fs| - 1], fs[|fs| - 1];
      EntryCount(init);
      EntriesAfterField(Body(init), f, Declares(init));
      var prev := Entries(Body(init));
      if FieldMapping(f).Some? {
        var next := prev[f.jsonName := FieldMapping(f).value];
        assert next.Keys == prev.Keys + {f.jsonName};
        assert |next.Keys| <= |prev.Keys| + |{f.jsonName}|;
      }
    }
  }

  /** A field list declares `falseBool` when its prefix does or its last field needs it. */
  lemma DeclaresLast(fs: seq<Field>)
    requires fs != []
    ensures Declares(fs) <==> Declares(fs[..|fs| - 1]) || NeedsFalseBool(fs[|fs| - 1])
  {
  }

  lemma UsesFalseBoolAppend(a: seq<Stmt>, b: seq<Stmt>)
    ensures UsesFalseBool(a + b) <==> UsesFalseBool(a) || UsesFalseBool(b)
  {
    var c := a + b;
    if UsesFalseBool(a) {
      var j :| 0 <= j < |a| && a[j].Assign? && RefersFalseBool(a[j].mapping);
      assert c[j] == a[j];
    }
    if UsesFalseBool(b) {
      var j :| 0 <= j < |b| && b[j].Assign? && RefersFalseBool(b[j].mapping);
      assert c[|a| + j] == b[j];
    }
    if UsesFalseBool(c) {
      var j :| 0 <= j < |c| && c[j].Assign? && RefersFalseBool(c[j].mapping);
      if j < |a| {
        assert a[j] == c[j];
      } else {
        assert b[j - |a|] == c[j];
      }
    }
  }

  /** `falseBool` is declared at most once, and exactly when some field needs it. */
  lemma {:induction false} FalseBoolDeclaredOnce(fs: seq<Field>)
    ensures multiset(Body(fs))[DeclFalseBool] == if Declares(fs) then 1 else 0
    decreases |fs|
  {
    if fs != [] {
      var init, f := fs[..|fs| - 1], fs[|fs| - 1];
      FalseBoolDeclaredOnce(init);
      DeclaresLast(fs);
      var tail := FieldStmts(f, Declares(init));
      assert multiset(tail)[DeclFalseBool] == if NeedsFalseBool(f) && !Declares(init) then 1 else 0;
      assert multiset(Body(fs)) == multiset(Body(init)) + multiset(tail);
    }
  }

  /**
   * The routine declares `falseBool` exactly when one of its assignments takes
   * its address: Go rejects both an unused local and an undeclared one.
   */
  lemma {:induction false} FalseBoolUsedIffDeclared(fs: seq<Field>)
    ensures UsesFalseBool(Body(fs)) <==> Declares(fs)
    decreases |fs|
  {
    if fs != [] {
      var init, f := fs[..|fs| - 1], fs[|fs| - 1];
      FalseBoolUsedIffDeclared(init);
      DeclaresLast(fs);
      MappingRefersFalseBool(f);
      var tail := FieldStmts(f, Declares(init));
      UsesFalseBoolAppend(Body(init), tail);
      assert UsesFalseBool(tail) <==> NeedsFalseBool(f) by {
        if NeedsFalseBool(f) {
          assert tail[|tail| - 1] == Assign(f.jsonName, FieldMapping(f).value);
        }
      }
    }
  }

  /** Every assignment that takes the address of `falseBool` follows its declaration. */
  lemma {:induction false} FalseBoolDeclaredBeforeUse(fs: seq<Field>)
    ensures DeclaredBeforeUse(Body(fs))
    decreases |fs|
  {
    if fs != [] {
      var init, f := fs[..|fs| - 1], fs[|fs| - 1];
      FalseBoolDeclaredBeforeUse(init);
      MappingRefersFalseBool(f);
      var b0 := Body(init);
      var decl := NeedsFalseBool(f) && !Declares(init);
      var tail := FieldStmts(f, Declares(init));
      var b := b0 + tail;
      assert Body(fs) == b;
      forall j | 0 <= j < |b| && b[j].Assign? && RefersFalseBool(b[j].mapping)
        ensures exists i :: 0 <= i < j && b[i] == DeclFalseBool
      {
        if j < |b0| {
          assert b0[j] == b[j];
          var i :| 0 <= i < j && b0[i] == DeclFalseBool;
          assert b[i] == DeclFalseBool;
        } else if decl {
          assert b[|b0|] == DeclFalseBool;
        } else {
          assert b[j] == tail[j - |b0|];
          FalseBoolDeclaredOnce(init);
          assert DeclFalseBool in multiset(b0);
          var i :| 0 <= i < |b0| && b0[i] == DeclFalseBool;
          assert b[i] == DeclFalseBool;
        }
      }
    }
  }

  // ---------------------------------------------------------------------------
  // The walk over messages.

  /** The run only grows: the processed set and the routines written so far are kept. */
  predicate Extends(s: State, r: State) {
    && s.processed <= r.processed
    && |s.routines| <= |r.routines|
    && r.routines[..|s.routines|] == s.routines
  }

  /**
   * One call of processMessage on m: nothing for a message already processed or
   * a map entry; otherwise the nested messages first, then m's own routine, and
   * m is marked processed.
   */
  function Walk(s: State, m: Message): (r: State)
    decreases m
    ensures m.ident in s.processed || m.isMapEntry ==> r == s
    ensures Extends(s, r)
    ensures !m.isMapEntry ==> m.ident in r.processed
    ensures forall i :: |s.routines| <= i < |r.routines| ==>
              r.routines[i].ident in r.processed - s.processed
    ensures forall x :: x in r.processed - s.processed ==>
              exists i :: |s.routines| <= i < |r.routines| && r.routines[i].ident == x
  {
    if m.ident in s.processed || m.isMapEntry then s
    else
      var t := WalkList(s, m.messages, 0);
      var r := State(t.processed + {m.ident}, t.routines + [RoutineFor(m)]);
      assert r.routines[|t.routines|].ident == m.ident;
      assert forall k :: 0 <= k < |t.routines| ==> r.routines[k] == t.routines[k];
      assert forall x :: x in r.processed - s.processed ==>
        exists k :: |s.routines| <= k < |r.routines| && r.routines[k].ident == x by {
        forall x | x in r.processed - s.processed
          ensures exists k :: |s.routines| <= k < |r.routines| && r.routines[k].ident == x
        {
          if x == m.ident {
            assert r.routines[|t.routines|].ident == x;
          } else {
            assert x in t.processed - s.processed;
            var k :| |s.routines| <= k < |t.routines| && t.routines[k].ident == x;
            assert r.routines[k].ident == x;
          }
        }
      }
      r
  }

  /** processMessage on ms[i], ms[i+1], ... in order. */
  function WalkList(s: State, ms: seq<Message>, i: nat): (r: State)
    decreases ms, |ms| - i
    ensures Extends(s, r)
    ensures forall j :: i <= j < |ms| && !ms[j].isMapEntry ==> ms[j].ident in r.processed
    ensures forall k :: |s.routines| <= k < |r.routines| ==>
              r.routines[k].ident in r.processed - s.processed
    ensures forall x :: x in r.processed - s.processed ==>
              exists k :: |s.routines| <= k < |r.routines| && r.routines[k].ident == x
  {
    if i >= |ms| then s
    else
      var t := Walk(s, ms[i]);
      var r := WalkList(t, ms, i + 1);
      assert forall k :: 0 <= k < |t.routines| ==> r.routines[k] == t.routines[k] by {
        assert r.routines[..|t.routines|] == t.routines;
      }
      assert forall x :: x in r.processed - s.processed ==>
        exists k :: |s.routines| <= k < |r.routines| && r.routines[k].ident == x by {
        forall x | x in r.processed - s.processed
          ensures exists k :: |s.routines| <= k < |r.routines| && r.routines[k].ident == x
        {
          if x in t.processed {
            assert x in t.processed - s.processed;
            var k :| |s.routines| <= k < |t.routines| && t.routines[k].ident == x;
            assert r.routines[k].ident == x;
          } else {
            assert x in r.processed - t.processed;
          }
        }
      }
      r
  }

  /** Every routine written between s and r is the routine of a message of ds that is not a map entry. */
  predicate GeneratedFrom(s: State, r: State, ds: set<Message>) {
    forall i :: |s.routines| <= i < |r.routines| ==>
      exists d :: d in ds && !d.isMapEntry && r.routines[i] == RoutineFor(d)
  }

  /** No two routines written between s and r are for the same identifier. */
  predicate NewDistinct(s: State, r: State) {
    forall i, j :: |s.routines| <= i < j < |r.routines| ==> r.routines[i].ident != r.routines[j].ident
  }

  /** Walking m writes only routines of m and of messages nested in it, never of a map entry,
      each with the body computed from that message's own fields. */
  lemma {:induction false} WalkSources(s: State, m: Message)
    ensures GeneratedFrom(s, Walk(s, m), Subtree(m))
    decreases m
  {
    if m.ident !in s.processed && !m.isMapEntry {
      var t := WalkList(s, m.messages, 0);
      var r := Walk(s, m);
      WalkListSources(s, m.messages, 0);
      forall i | |s.routines| <= i < |r.routines|
        ensures exists d :: d in Subtree(m) && !d.isMapEntry && r.routines[i] == RoutineFor(d)
      {
        if i < |t.routines| {
          assert GeneratedFrom(s, t, Forest(m.messages, 0));
          assert exists d :: d in Forest(m.messages, 0) && !d.isMapEntry && t.routines[i] == RoutineFor(d);
          var d :| d in Forest(m.messages, 0) && !d.isMapEntry && t.routines[i] == RoutineFor(d);
          assert r.routines[i] == t.routines[i];
          assert d in Subtree(m);
        } else {
          assert r.routines[i] == RoutineFor(m);
        }
      }
    }
  }

  lemma {:induction false} WalkListSources(s: State, ms: seq<Message>, i: nat)
    ensures GeneratedFrom(s, WalkList(s, ms, i), Forest(ms, i))
    decreases ms, |ms| - i
  {
    if i < |ms| {
      var t := Walk(s, ms[i]);
      var r := WalkList(t, ms, i + 1);
      WalkSources(s, ms[i]);
      WalkListSources(t, ms, i + 1);
      assert r.routines[..|t.routines|] == t.routines;
      forall k | |s.routines| <= k < |r.routines|
        ensures exists d :: d in Forest(ms, i) && !d.isMapEntry && r.routines[k] == RoutineFor(d)
      {
        if k < |t.routines| {
          assert exists d :: d in Subtree(ms[i]) && !d.isMapEntry && t.routines[k] == RoutineFor(d);
          var d :| d in Subtree(ms[i]) && !d.isMapEntry && t.routines[k] == RoutineFor(d);
          assert r.routines[k] == t.routines[k];
        } else {
          assert exists d :: d in Forest(ms, i + 1) && !d.isMapEntry && r.routines[k] == RoutineFor(d);
          var d :| d in Forest(ms, i + 1) && !d.isMapEntry && r.routines[k] == RoutineFor(d);
        }
      }
    }
  }

  /**
   * Within one walk no identifier gets two routines, provided no message shares
   * its identifier with a message nested inside it.
   */
  lemma {:induction false} WalkEmitsOnce(s: State, m: Message)
    requires WellNested(m)
    ensures NewDistinct(s, Walk(s, m))
    decreases m
  {
    if m.ident !in s.processed && !m.isMapEntry {
      var t := WalkList(s, m.messages, 0);
      var r := Walk(s, m);
      WalkListEmitsOnce(s, m.messages, 0);
      WalkListSources(s, m.messages, 0);
      forall i, j | |s.routines| <= i < j < |r.routines|
        ensures r.routines[i].ident != r.routines[j].ident
      {
        assert r.routines[i] == t.routines[i];
        if j < |t.routines| {
          assert r.routines[j] == t.routines[j];
        } else {
          assert exists d :: d in Forest(m.messages, 0) && !d.isMapEntry && t.routines[i] == RoutineFor(d);
          var d :| d in Forest(m.messages, 0) && !d.isMapEntry && t.routines[i] == RoutineFor(d);
          assert d.ident != m.ident;
        }
      }
    }
  }

  lemma {:induction false} WalkListEmitsOnce(s: State, ms: seq<Message>, i: nat)
    requires forall j :: i <= j < |ms| ==> WellNested(ms[j])
    ensures NewDistinct(s, WalkList(s, ms, i))
    decreases ms, |ms| - i
  {
    if i < |ms| {
      var t := Walk(s, ms[i]);
      var r := WalkList(t, ms, i + 1);
      WalkEmitsOnce(s, ms[i]);
      WalkListEmitsOnce(t, ms, i + 1);
      assert r.routines[..|t.routines|] == t.routines;
      forall a, b | |s.routines| <= a < b < |r.routines|
        ensures r.routines[a].ident != r.routines[b].ident
      {
        if b < |t.routines| {
          assert r.routines[a] == t.routines[a] && r.routines[b] == t.routines[b];
        } else if a < |t.routines| {
          assert r.routines[a] == t.routines[a];
          assert t.routines[a].ident in t.processed - s.processed;
          assert r.routines[b].ident in r.processed - t.processed;
        }
      }
    }
  }

  /**
   * When m is walked, its routine is the last one written, and every nested
   * message that is not a map entry has its routine written before it, in this
   * walk or an earlier one.
   */
  lemma NestedBeforeEnclosing(s: State, m: Message)
    requires m.ident !in s.processed && !m.isMapEntry
    ensures var r := Walk(s, m);
      |r.routines| > |s.routines| && r.routines[|r.routines| - 1] == RoutineFor(m)
    ensures var r := Walk(s, m);
      forall c :: c in m.messages && !c.isMapEntry ==>
        c.ident in s.processed || exists i :: |s.routines| <= i < |r.routines| - 1 && r.routines[i].ident == c.ident
  {
    var t := WalkList(s, m.messages, 0);
    var r := Walk(s, m);
    forall c | c in m.messages && !c.isMapEntry && c.ident !in s.processed
      ensures exists i :: |s.routines| <= i < |r.routines| - 1 && r.routines[i].ident == c.ident
    {
      var j :| 0 <= j < |m.messages| && m.messages[j] == c;
      assert c.ident in t.processed - s.processed;
      var i :| |s.routines| <= i < |t.routines| && t.routines[i].ident == c.ident;
      assert r.routines[i] == t.routines[i];
    }
  }

  /** An identifier that belongs only to map-entry messages is never added to the processed set. */
  lemma MapEntryNeverProcessed(s: State, m: Message, x: Ident)
    requires x !in s.processed
    requires forall d :: d in Subtree(m) && d.ident == x ==> d.isMapEntry
    ensures x !in Walk(s, m).processed
  {
    var r := Walk(s, m);
    WalkSources(s, m);
    forall y | y in r.processed - s.processed
      ensures exists d :: d in Subtree(m) && !d.isMapEntry && d.ident == y
    {
      var i :| |s.routines| <= i < |r.routines| && r.routines[i].ident == y;
      var d :| d in Subtree(m) && !d.isMapEntry && r.routines[i] == RoutineFor(d);
      assert d.ident == y;
    }
    assert x in r.processed ==> x in r.processed - s.processed;
  }

  /**
   * Over two generated files of one run, every identifier gets at most one
   * routine: each file's routines are distinct, and the second file writes none
   * of the first file's identifiers.
   */
  lemma RunEmitsEachIdentOnce(p: set<Ident>, first: seq<Message>, second: seq<Message>)
    requires forall j :: 0 <= j < |first| ==> WellNested(first[j])
    requires forall j :: 0 <= j < |second| ==> WellNested(second[j])
    ensures var s1 := WalkList(State(p, []), first, 0);
      var s2 := WalkList(State(s1.processed, []), second, 0);
      && NewDistinct(State(p, []), s1)
      && NewDistinct(State(s1.processed, []), s2)
      && forall i, j :: 0 <= i < |s1.routines| && 0 <= j < |s2.routines| ==>
           s1.routines[i].ident != s2.routines[j].ident
  {
    var s1 := WalkList(State(p, []), first, 0);
    var s2 := WalkList(State(s1.processed, []), second, 0);
    WalkListEmitsOnce(State(p, []), first, 0);
    WalkListEmitsOnce(State(s1.processed, []), second, 0);
    forall i, j | 0 <= i < |s1.routines| && 0 <= j < |s2.routines|
      ensures s1.routines[i].ident != s2.routines[j].ident
    {
      assert s1.routines[i].ident in s1.processed;
      assert s2.routines[j].ident in s2.processed - s1.processed;
    }
  }

  /** A message with a field of its own type: the walk ends with one routine whose
      entry calls that same routine, and walking it again writes nothing. */
  lemma SelfReference(id: Ident)
    requires id != TimestampIdent && id != AnyIdent && id != StructValue
    ensures var node := Message(id, false, [Field("child", MessageKind(id), false)], []);
      var r := Walk(State({}, []), node);
      && r == State({id}, [Routine(id, [Assign("child", OpensearchMapping("nested", CallRoutine(id), map[], Unset, 0))])])
      && Walk(r, node) == r
  {
    var node := Message(id, false, [Field("child", MessageKind(id), false)], []);
    var fs := node.fields;
    assert fs[..0] == [];
    assert Body(fs) == [Assign("child", OpensearchMapping("nested", CallRoutine(id), map[], Unset, 0))];
  }

  /** The routine body for a message with the fields f and g, in that order. */
  lemma BodyOfTwo(f: Field, g: Field)
    ensures Body([f, g]) == FieldStmts(f, false) + FieldStmts(g, NeedsFalseBool(f))
  {
    BodyAppend([], f);
    assert [] + [f] == [f];
    BodyAppend([f], g);
    assert [f] + [g] == [f, g];
    assert Declares([f]) == NeedsFalseBool(f) by {
      if NeedsFalseBool(f) {
        assert [f][0] == f;
      }
    }
  }

  /**
   * The fixed properties written for a Timestamp field are what the generic walk
   * gives google.protobuf.Timestamp's own fields, int64 seconds and int32 nanos.
   */
  lemma TimestampPropertiesMatchItsFields()
    ensures Entries(Body([Field("seconds", Int64Kind, false), Field("nanos", Int32Kind, false)])) == TimestampProperties
  {
    var seconds, nanos := Field("seconds", Int64Kind, false), Field("nanos", Int32Kind, false);
    BodyOfTwo(seconds, nanos);
    assert FieldStmts(seconds, false) == [Assign("seconds", Leaf("long"))];
    assert FieldStmts(nanos, false) == [Assign("nanos", Leaf("integer"))];
    EntriesAfterField([], seconds, false);
    EntriesAfterField(FieldStmts(seconds, false), nanos, false);
  }

  /**
   * The fixed properties written for an Any field hold what the generic walk
   * gives google.protobuf.Any's own fields, string type_url and bytes value,
   * except that they key type_url by its proto name: the walk keys it by its
   * JSON name "typeUrl", which the fixed map does not contain.
   */
  lemma AnyPropertiesUseProtoNames()
    ensures Entries(Body([Field("typeUrl", StringKind, false), Field("value", BytesKind, false)]))
              == map["typeUrl" := AnyProperties["type_url"], "value" := AnyProperties["value"]]
    ensures "typeUrl" !in AnyProperties
  {
    var typeUrl, value := Field("typeUrl", StringKind, false), Field("value", BytesKind, false);
    BodyOfTwo(typeUrl, value);
    assert !NeedsFalseBool(typeUrl) && NeedsFalseBool(value);
    var first := FieldStmts(typeUrl, false);
    assert first == [Assign("typeUrl", TextWithKeyword)];
    assert FieldMapping(value) == Some(UnindexedByte);
    EntriesAfterField([], typeUrl, false);
    assert [] + first == first;
    assert Entries(first) == map["typeUrl" := TextWithKeyword];
    EntriesAfterField(first, value, false);
    assert Entries(first + FieldStmts(value, false)) == map["typeUrl" := TextWithKeyword, "value" := UnindexedByte];
    assert AnyProperties.Keys == {"type_url", "value"};
  }

  /** The plugin's state: the package-level processed set and the file being written. */
  class Plugin {
    /** The package-level `mapMessageProcessed` set. */
    var processed: set<Ident>
    /** The routines written to the current generated file. */
    var output: seq<Routine>

    constructor ()
      ensures processed == {} && output == []
    {
      processed := {};
      output := [];
    }

    /** processMessage: writes the routines for m and its nested messages. */
    method ProcessMessage(m: Message)
      modifies this
      decreases m
      ensures State(processed, output) == Walk(old(State(processed, output)), m)
    {
      if m.ident in processed {
        return;
      }
      if m.isMapEntry {
        return;
      }
      ghost var s0 := State(processed, output);
      for i := 0 to |m.messages|
        invariant WalkList(State(processed, output), m.messages, i) == WalkList(s0, m.messages, 0)
      {
        ProcessMessage(m.messages[i]);
      }
      var body := EmitMappingRoutine(m.fields);
      output := output + [Routine(m.ident, body)];
      processed := processed + {m.ident};
    }

    /**
     * GenerateFile: a new generated file holding the routines for the file's
     * messages, with the processed set carried over from earlier files.
     */
    method GenerateFile(file: seq<Message>)
      modifies this
      ensures State(processed, output) == WalkList(State(old(processed), []), file, 0)
      ensures old(processed) <= processed
      ensures forall i :: 0 <= i < |output| ==> output[i].ident in processed - old(processed)
    {
      output := [];
      ghost var s0 := State(processed, output);
      for i := 0 to |file|
        invariant WalkList(State(processed, output), file, i) == WalkList(s0, file, 0)
      {
        ProcessMessage(file[i]);
      }
    }
  }

}
