/** The script of tools/pro2/publish_examples.py as it is written, a loop over files with one
    request at a time, run against a store on which every other publisher may move between
    any two of its requests. Each run of the script is a run of the protocol in Publish. */
module PublishScript {
  import opened Common
  import opened Publish

  datatype Fetch = Found(item: Object) | Absent | Error

  /** The shared store, together with where every publisher stands. */
  class Store {
    var sys: System

    constructor (sys: System)
      ensures this.sys == sys
    {
      this.sys := sys;
    }

    /** The other publishers move. */
    method Others(env: Env, me: nat, moves: seq<Move>) returns (ghost made: seq<Move>)
      requires me < |sys.pubs|
      modifies this
      ensures sys == Run(env, old(sys), made)
      ensures forall k :: 0 <= k < |made| ==> made[k].who != me
      ensures |sys.pubs| == |old(sys).pubs| && sys.pubs[me] == old(sys).pubs[me]
    {
      made := [];
      for k := 0 to |moves|
        invariant sys == Run(env, old(sys), made)
        invariant forall k :: 0 <= k < |made| ==> made[k].who != me
        invariant |sys.pubs| == |old(sys).pubs| && sys.pubs[me] == old(sys).pubs[me]
      {
        if moves[k].who != me {
          StepGrows(env, sys, moves[k]);
          sys := Step(env, sys, moves[k]);
          assert (made + [moves[k]])[..|made|] == made;
          made := made + [moves[k]];
        }
      }
    }

    method Get(key: string, reply: Reply) returns (r: Fetch)
      ensures r == if !reply.Deliver? then Error else if key in sys.objects then Found(sys.objects[key]) else Absent
    {
      if !reply.Deliver? { return Error; }
      if key in sys.objects { return Found(sys.objects[key]); }
      return Absent;
    }

    /** A conditional write: If-None-Match: * when `guard` is None, If-Match otherwise. */
    method Put(key: string, body: string, guard: Option<string>, reply: Reply) returns (ok: bool)
      modifies this
      ensures var applied := WriteApplies(old(sys), reply, body) && Matches(old(sys), key, guard);
              && sys == (if applied then Write(old(sys), key, body, reply.tag) else old(sys))
              && ok == (applied && reply.Deliver?)
    {
      ok := false;
      if !reply.Refuse? && FreshTag(sys, reply.tag, body) {
        var holds := match guard
          case None => key !in sys.objects
          case Some(tag) => key in sys.objects && sys.objects[key].tag == tag;
        if holds {
          sys := sys.(objects := sys.objects[key := Object(body, reply.tag)], issued := sys.issued[reply.tag := body]);
          ok := reply.Deliver?;
        }
      }
    }

    /** Note where a publisher stands; no effect on stored objects. */
    method Note(me: nat, pub: Publisher, log: seq<Activation>)
      requires me < |sys.pubs|
      modifies this
      ensures sys == old(sys).(pubs := old(sys).pubs[me := pub], log := log)
    {
      sys := sys.(pubs := sys.pubs[me := pub], log := log);
    }
  }

  /** What happens around the script's k-th request: the moves of the others just before it,
      and how the store answers it. */
  type Oracle = nat -> (seq<Move>, Reply)

  lemma {:induction false} RunConcat(env: Env, s: System, a: seq<Move>, b: seq<Move>)
    ensures Run(env, s, a + b) == Run(env, Run(env, s, a), b)
    decreases |b|
  {
    if b == [] {
      assert a + b == a;
    } else {
      assert (a + b)[..|a + b| - 1] == a + b[..|b| - 1];
      RunConcat(env, s, a, b[..|b| - 1]);
    }
  }

  /** Extending a run by the others' moves and then one own move. */
  lemma {:induction false} Extend(env: Env, s0: System, trace: seq<Move>, made: seq<Move>, m: Move, s1: System, s2: System)
    requires s1 == Run(env, Run(env, s0, trace), made)
    requires s2 == Step(env, s1, m)
    ensures s2 == Run(env, s0, trace + made + [m])
  {
    RunConcat(env, s0, trace, made);
    assert (trace + made + [m])[..|trace + made|] == trace + made;
  }

  ghost predicate IsRun(env: Env, s0: System, trace: seq<Move>, s: System) {
    s == Run(env, s0, trace)
  }

  /** The own state of publisher `me` after a request of its script: the run is extended, the
      others kept away from it, and it stands at `next`. */
  ghost predicate Advanced(env: Env, s0: System, trace: seq<Move>, s: System, me: nat, next: Publisher) {
    IsRun(env, s0, trace, s) && me < |s.pubs| && s.pubs[me] == next
  }

  /** Does the file exist with the right digest, with another one, or not at all? */
  method CheckFile(env: Env, store: Store, me: nat, oracle: (seq<Move>, Reply), ghost s0: System, ghost before: seq<Move>)
    returns (next: Pc, ghost trace: seq<Move>)
    requires IsRun(env, s0, before, store.sys)
    requires me < |store.sys.pubs| && store.sys.pubs[me].pc.GetFile? && AtFile(env, store.sys.pubs[me])
    modifies store
    ensures var pub := old(store.sys).pubs[me];
            && Advanced(env, s0, trace, store.sys, me, pub.(pc := next))
            && next in {PutFile(pub.pc.i), VerifyFile(pub.pc.i), Finished(Failed)}
  {
    var pub := store.sys.pubs[me];
    var i := pub.pc.i;
    var name := pub.release.order[i];
    var key := ReleaseKey(env.prefix, VersionOf(env, pub.release), name);
    ghost var made := store.Others(env, me, oracle.0);
    ghost var s := store.sys;
    var existing := store.Get(key, oracle.1);
    next := match existing
      case Error => Finished(Failed)
      case Absent => PutFile(i)
      case Found(o) => if env.hash(o.body) == env.hash(pub.release.files[name]) then VerifyFile(i) else Finished(Failed);
    store.Note(me, pub.(pc := next), store.sys.log);
    Extend(env, s0, before, made, Move(me, oracle.1), s, store.sys);
    trace := before + made + [Move(me, oracle.1)];
  }

  method PutMissing(env: Env, store: Store, me: nat, oracle: (seq<Move>, Reply), ghost s0: System, ghost before: seq<Move>)
    returns (next: Pc, ghost trace: seq<Move>)
    requires IsRun(env, s0, before, store.sys)
    requires me < |store.sys.pubs| && store.sys.pubs[me].pc.PutFile? && AtFile(env, store.sys.pubs[me])
    modifies store
    ensures var pub := old(store.sys).pubs[me];
            && Advanced(env, s0, trace, store.sys, me, pub.(pc := next))
            && next in {VerifyFile(pub.pc.i), Finished(Failed)}
  {
    var pub := store.sys.pubs[me];
    var name := pub.release.order[pub.pc.i];
    var key := ReleaseKey(env.prefix, VersionOf(env, pub.release), name);
    ghost var made := store.Others(env, me, oracle.0);
    ghost var s := store.sys;
    var ok := store.Put(key, pub.release.files[name], None, oracle.1);
    next := if ok then VerifyFile(pub.pc.i) else Finished(Failed);
    store.Note(me, pub.(pc := next), store.sys.log);
    assert store.sys == Step(env, s, Move(me, oracle.1));
    Extend(env, s0, before, made, Move(me, oracle.1), s, store.sys);
    trace := before + made + [Move(me, oracle.1)];
  }

  method VerifyStored(env: Env, store: Store, me: nat, oracle: (seq<Move>, Reply), ghost s0: System, ghost before: seq<Move>)
    returns (next: Pc, ghost trace: seq<Move>)
    requires IsRun(env, s0, before, store.sys)
    requires me < |store.sys.pubs| && store.sys.pubs[me].pc.VerifyFile? && AtFile(env, store.sys.pubs[me])
    modifies store
    ensures var pub := old(store.sys).pubs[me];
            && Advanced(env, s0, trace, store.sys, me, pub.(pc := next))
            && next in {AfterFile(pub, pub.pc.i + 1), Finished(Failed)}
  {
    var pub := store.sys.pubs[me];
    var name := pub.release.order[pub.pc.i];
    var key := ReleaseKey(env.prefix, VersionOf(env, pub.release), name);
    ghost var made := store.Others(env, me, oracle.0);
    ghost var s := store.sys;
    var stored := store.Get(key, oracle.1);
    next := if stored.Found? && env.hash(stored.item.body) == env.hash(pub.release.files[name])
      then AfterFile(pub, pub.pc.i + 1) else Finished(Failed);
    store.Note(me, pub.(pc := next), store.sys.log);
    Extend(env, s0, before, made, Move(me, oracle.1), s, store.sys);
    trace := before + made + [Move(me, oracle.1)];
  }

  /** Read latest.json; remember its body before replacing it. */
  method ReadPointer(env: Env, store: Store, me: nat, oracle: (seq<Move>, Reply), ghost s0: System, ghost before: seq<Move>)
    returns (next: Publisher, ghost trace: seq<Move>)
    requires IsRun(env, s0, before, store.sys)
    requires me < |store.sys.pubs| && store.sys.pubs[me].pc.ReadLatest? && AtPointer(env, store.sys.pubs[me])
    modifies store
    ensures Advanced(env, s0, trace, store.sys, me, next)
    ensures next.release == old(store.sys).pubs[me].release && (next.pc.PutLatest? || next.pc.Finished?)
  {
    var pub := store.sys.pubs[me];
    ghost var made := store.Others(env, me, oracle.0);
    ghost var s := store.sys;
    var current := store.Get(LatestKey(env.prefix), oracle.1);
    match current {
      case Error => next := pub.(pc := Finished(Failed));
      case Absent => next := pub.(pc := PutLatest(None));
      case Found(o) =>
        match env.pointer(o.body)
        case Unreadable => next := pub.(pc := Finished(Failed));
        case Document(v) =>
          if v == Some(VersionOf(env, pub.release)) {
            next := pub.(pc := Finished(AlreadyActive));
          } else {
            next := pub.(pc := PutLatest(Some(o.tag)), saved := Some(o.body));
          }
    }
    store.Note(me, next, store.sys.log);
    Extend(env, s0, before, made, Move(me, oracle.1), s, store.sys);
    trace := before + made + [Move(me, oracle.1)];
  }

  /** Replace latest.json on the condition that it is still the object that was read. */
  method WritePointer(env: Env, store: Store, me: nat, oracle: (seq<Move>, Reply), ghost s0: System, ghost before: seq<Move>)
    returns (outcome: Outcome, ghost trace: seq<Move>)
    requires IsRun(env, s0, before, store.sys)
    requires me < |store.sys.pubs| && store.sys.pubs[me].pc.PutLatest? && AtPointer(env, store.sys.pubs[me])
    modifies store
    ensures Advanced(env, s0, trace, store.sys, me, old(store.sys).pubs[me].(pc := Finished(outcome)))
  {
    var pub := store.sys.pubs[me];
    var key, version := LatestKey(env.prefix), VersionOf(env, pub.release);
    ghost var made := store.Others(env, me, oracle.0);
    ghost var s := store.sys;
    var replaced := Current(store.sys, key);
    var applied := WriteApplies(store.sys, oracle.1, env.encode(version)) && Matches(store.sys, key, pub.pc.guard);
    var ok := store.Put(key, env.encode(version), pub.pc.guard, oracle.1);
    outcome := if ok then Activated else Failed;
    store.Note(me, pub.(pc := Finished(outcome)),
               if applied then store.sys.log + [Activation(me, version, replaced, pub.saved)] else store.sys.log);
    assert store.sys == Step(env, s, Move(me, oracle.1));
    Extend(env, s0, before, made, Move(me, oracle.1), s, store.sys);
    trace := before + made + [Move(me, oracle.1)];
  }

  /** One file of the upload loop: look for it, put it if it is missing, read it back. */
  method PublishFile(env: Env, store: Store, me: nat, oracle: Oracle, k: nat, ghost s0: System, ghost before: seq<Move>)
    returns (next: Pc, ghost trace: seq<Move>, used: nat)
    requires IsRun(env, s0, before, store.sys)
    requires me < |store.sys.pubs| && store.sys.pubs[me].pc.GetFile? && AtFile(env, store.sys.pubs[me])
    modifies store
    ensures var pub := old(store.sys).pubs[me];
            && Advanced(env, s0, trace, store.sys, me, pub.(pc := next))
            && next in {AfterFile(pub, pub.pc.i + 1), Finished(Failed)}
  {
    used := k;
    next, trace := CheckFile(env, store, me, oracle(used), s0, before);
    if next.PutFile? {
      used := used + 1;
      next, trace := PutMissing(env, store, me, oracle(used), s0, trace);
    }
    if next == Finished(Failed) { return; }
    next, trace := VerifyStored(env, store, me, oracle(used + 1), s0, trace);
    used := used + 2;
  }

  /** The checks on the manifest, before any request. */
  method Begin(env: Env, store: Store, me: nat) returns (good: bool, ghost trace: seq<Move>)
    requires me < |store.sys.pubs| && store.sys.pubs[me].pc == Start
    modifies store
    ensures var pub := old(store.sys).pubs[me];
            && good == (Publishable(env, pub.release) && Lists(pub.release))
            && Advanced(env, old(store.sys), trace, store.sys, me,
                        pub.(pc := if good then AfterFile(pub, 0) else Finished(Failed)))
  {
    ghost var s0 := store.sys;
    var pub := store.sys.pubs[me];
    trace := [Move(me, Refuse)];
    assert trace[..0] == [];
    good := Publishable(env, pub.release) && Lists(pub.release);
    store.Note(me, pub.(pc := if good then AfterFile(pub, 0) else Finished(Failed)), store.sys.log);
    assert store.sys == Step(env, s0, Move(me, Refuse));
  }

  /** The whole script. */
  method RunScript(env: Env, store: Store, me: nat, oracle: Oracle)
    returns (outcome: Outcome, ghost trace: seq<Move>)
    requires me < |store.sys.pubs| && store.sys.pubs[me].pc == Start
    modifies store
    ensures store.sys == Run(env, old(store.sys), trace)
    ensures me < |store.sys.pubs| && store.sys.pubs[me].pc == Finished(outcome)
  {
    ghost var s0 := store.sys;
    var pub := store.sys.pubs[me];
    var release := pub.release;
    var good;
    good, trace := Begin(env, store, me);
    if !good { return Failed, trace; }
    var k := 0;
    for i := 0 to |release.order|
      invariant Advanced(env, s0, trace, store.sys, me, pub.(pc := AfterFile(pub, i)))
    {
      assert release.order[i] in release.order;
      var next;
      next, trace, k := PublishFile(env, store, me, oracle, k, s0, trace);
      if next == Finished(Failed) { return Failed, trace; }
    }
    if !pub.activate { return Published, trace; }
    var next;
    next, trace := ReadPointer(env, store, me, oracle(k), s0, trace);
    if next.pc.Finished? { return next.pc.outcome, trace; }
    outcome, trace := WritePointer(env, store, me, oracle(k + 1), s0, trace);
  }

  /** The safety results carried over to the script: whatever the others do between its
      requests, a script that starts in an initial system leaves latest.json naming only a
      complete release, and one that reports activation has published its own release. */
  lemma {:induction false} ScriptIsSafe(env: Env, s0: System, trace: seq<Move>, me: nat)
    requires Sound(env) && Init(env, s0) && me < |s0.pubs|
    ensures var s := Run(env, s0, trace);
            && PointerSafe(env, s)
            && |s.pubs| == |s0.pubs|
            && (s.pubs[me].pc.Finished? && s.pubs[me].pc != Finished(Failed) ==>
                  && Publishable(env, s.pubs[me].release)
                  && Complete(env, s.objects, VersionOf(env, s.pubs[me].release)))
  {
    var s := Run(env, s0, trace);
    InitInv(env, s0);
    RunInv(env, s0, trace);
    RunLength(env, s0, trace);
    var pub := s.pubs[me];
    assert PublisherOk(env, s, pub);
    if pub.pc.Finished? && pub.pc != Finished(Failed) {
      StoredIsComplete(env, s.objects, pub.release);
    }
  }

  lemma {:induction false} RunLength(env: Env, s: System, moves: seq<Move>)
    ensures |Run(env, s, moves).pubs| == |s.pubs|
    decreases |moves|
  {
    if moves != [] { RunLength(env, s, moves[..|moves| - 1]); }
  }
}
