/** The release publish/activate protocol of tools/pro2/publish_examples.py: any number of
    publishers race on one object store that offers conditional writes.

    The store is the environment. A read returns the current object or fails. A conditional
    write takes effect only when its condition holds, and its reply may be lost after it took
    effect. Each write gets an entity tag; a tag is never reused for different content. */
module Publish {
  import opened Common

  datatype Artifact = Artifact(filename: string, size: nat, sha256: string)

  datatype Manifest = Manifest(version: string, testOnly: bool, artifacts: seq<Artifact>)

  /** The publish directory: contents by name, and the names in the order they are uploaded. */
  datatype Release = Release(files: map<string, string>, order: seq<string>)

  datatype PointerDoc = Unreadable | Document(version: Option<string>)

  /** Code outside the script: SHA-256, the JSON readers and the JSON writer. */
  datatype Env = Env(
    prefix: string,
    hash: string -> string,
    manifest: string -> Option<Manifest>,
    pointer: string -> PointerDoc,
    encode: string -> string)

  datatype Object = Object(body: string, tag: string)

  datatype Outcome = Failed | Published | AlreadyActive | Activated

  datatype Pc =
    | Start
    | GetFile(i: nat)
    | PutFile(i: nat)
    | VerifyFile(i: nat)
    | ReadLatest
    | PutLatest(guard: Option<string>)
    | Finished(outcome: Outcome)

  datatype Publisher = Publisher(release: Release, activate: bool, pc: Pc, saved: Option<string>)

  /** A write of latest.json: who, to which version, the body replaced, the body saved. */
  datatype Activation = Activation(who: nat, version: string, replaced: Option<string>, saved: Option<string>)

  datatype System = System(
    objects: map<string, Object>,
    issued: map<string, string>,
    pubs: seq<Publisher>,
    log: seq<Activation>)

  /** How the store answers one request: with the result, with an error although a write
      took effect, or with an error and no effect. The tag is the one a write would get. */
  datatype Reply = Deliver(tag: string) | Drop(tag: string) | Refuse

  datatype Move = Move(who: nat, reply: Reply)

  // ---------------------------------------------------------------- names

  const MANIFEST := "manifest.json"

  predicate Alnum(c: char) { 'a' <= c <= 'z' || 'A' <= c <= 'Z' || '0' <= c <= '9' }

  predicate ValidVersion(v: string) {
    && 1 <= |v| <= 41
    && Alnum(v[0])
    && forall i :: 0 <= i < |v| ==> Alnum(v[i]) || v[i] == '.' || v[i] == '_' || v[i] == '-'
  }

  function ReleaseKey(prefix: string, version: string, name: string): (r: string) {
    prefix + "releases/" + version + "/" + name
  }

  function LatestKey(prefix: string): (r: string) { prefix + "latest.json" }

  lemma KeysDiffer(prefix: string, version: string, name: string)
    ensures ReleaseKey(prefix, version, name) != LatestKey(prefix)
  {
    assert ReleaseKey(prefix, version, name)[|prefix|] == 'r';
    assert LatestKey(prefix)[|prefix|] == 'l';
  }

  /** Versions hold no slash, so a release key determines its version and file name: objects
      of different releases never share a key. */
  lemma KeyInjective(prefix: string, v: string, n: string, v': string, n': string)
    requires ValidVersion(v) && ValidVersion(v')
    requires ReleaseKey(prefix, v, n) == ReleaseKey(prefix, v', n')
    ensures v == v' && n == n'
  {
    var base := prefix + "releases/";
    var k := |base|;
    var a, b := v + "/" + n, v' + "/" + n';
    assert ReleaseKey(prefix, v, n) == base + a && ReleaseKey(prefix, v', n') == base + b;
    assert a == (base + a)[k..] && b == (base + b)[k..];
    assert a == b;
    assert a[|v|] == '/' && b[|v'|] == '/';
    assert forall i :: 0 <= i < |v| ==> a[i] == v[i];
    assert forall i :: 0 <= i < |v'| ==> b[i] == v'[i];
    assert |v| == |v'|;
    assert v == a[..|v|] && v' == b[..|v'|];
    assert n == a[|v| + 1..] && n' == b[|v'| + 1..];
  }

  // ---------------------------------------------------------------- local checks

  function Names(artifacts: seq<Artifact>): (r: set<string>) {
    set a | a in artifacts :: a.filename
  }

  /** The checks made before the first request. */
  predicate Publishable(env: Env, r: Release) {
    && MANIFEST in r.files
    && env.manifest(r.files[MANIFEST]).Some?
    && var m := env.manifest(r.files[MANIFEST]).value;
    && ValidVersion(m.version) && m.testOnly
    && r.files.Keys == Names(m.artifacts) + {MANIFEST}
    && (forall a :: a in m.artifacts ==>
          a.filename in r.files && |r.files[a.filename]| == a.size && env.hash(r.files[a.filename]) == a.sha256)
  }

  function VersionOf(env: Env, r: Release): (out: string)
    requires Publishable(env, r)
  {
    env.manifest(r.files[MANIFEST]).value.version
  }

  /** The upload order lists every file. */
  predicate Lists(r: Release) {
    && (forall n :: n in r.order ==> n in r.files)
    && (forall n :: n in r.files ==> n in r.order)
  }

  // ---------------------------------------------------------------- the step function

  predicate FreshTag(s: System, tag: string, body: string) {
    tag in s.issued ==> s.issued[tag] == body
  }

  predicate WriteApplies(s: System, reply: Reply, body: string) {
    !reply.Refuse? && FreshTag(s, reply.tag, body)
  }

  function AfterFile(pub: Publisher, i: nat): (r: Pc) {
    if i < |pub.release.order| then GetFile(i)
    else if pub.activate then ReadLatest else Finished(Published)
  }

  predicate AtFile(env: Env, pub: Publisher) {
    && (pub.pc.GetFile? || pub.pc.PutFile? || pub.pc.VerifyFile?)
    && Publishable(env, pub.release)
    && pub.pc.i < |pub.release.order| && pub.release.order[pub.pc.i] in pub.release.files
  }

  function FileKey(env: Env, pub: Publisher): (r: string)
    requires AtFile(env, pub)
  {
    ReleaseKey(env.prefix, VersionOf(env, pub.release), pub.release.order[pub.pc.i])
  }

  function FileBody(env: Env, pub: Publisher): (r: string)
    requires AtFile(env, pub)
  {
    pub.release.files[pub.release.order[pub.pc.i]]
  }

  predicate AtPointer(env: Env, pub: Publisher) {
    (pub.pc.ReadLatest? || pub.pc.PutLatest?) && Publishable(env, pub.release)
  }

  datatype Effect = NoWrite | PutObject | PutPointer

  /** What the request of a publisher does to the store. */
  function EffectOf(env: Env, s: System, pub: Publisher, reply: Reply): (r: Effect) {
    if pub.pc.PutFile? && AtFile(env, pub) && WriteApplies(s, reply, FileBody(env, pub)) && FileKey(env, pub) !in s.objects
    then PutObject
    else if pub.pc.PutLatest? && AtPointer(env, pub) && WriteApplies(s, reply, env.encode(VersionOf(env, pub.release)))
         && Matches(s, LatestKey(env.prefix), pub.pc.guard)
    then PutPointer
    else NoWrite
  }

  /** What the publisher does with the answer. */
  function NextPublisher(env: Env, s: System, pub: Publisher, reply: Reply): (r: Publisher) {
    if pub.pc.Start? then
      pub.(pc := if Publishable(env, pub.release) && Lists(pub.release) then AfterFile(pub, 0) else Finished(Failed))
    else if AtFile(env, pub) then NextAtFile(env, s, pub, reply)
    else if AtPointer(env, pub) then NextAtPointer(env, s, pub, reply)
    else pub
  }

  function NextAtFile(env: Env, s: System, pub: Publisher, reply: Reply): (r: Publisher)
    requires AtFile(env, pub)
  {
    var key, body, i := FileKey(env, pub), FileBody(env, pub), pub.pc.i;
    var same := key in s.objects && env.hash(s.objects[key].body) == env.hash(body);
    if !reply.Deliver? then pub.(pc := Finished(Failed))
    else match pub.pc
      case GetFile(_) =>
        pub.(pc := if key !in s.objects then PutFile(i) else if same then VerifyFile(i) else Finished(Failed))
      case PutFile(_) =>
        pub.(pc := if EffectOf(env, s, pub, reply).PutObject? then VerifyFile(i) else Finished(Failed))
      case VerifyFile(_) =>
        pub.(pc := if same then AfterFile(pub, i + 1) else Finished(Failed))
  }

  function NextAtPointer(env: Env, s: System, pub: Publisher, reply: Reply): (r: Publisher)
    requires AtPointer(env, pub)
  {
    var key := LatestKey(env.prefix);
    if !reply.Deliver? then pub.(pc := Finished(Failed))
    else if pub.pc.PutLatest? then
      pub.(pc := Finished(if EffectOf(env, s, pub, reply).PutPointer? then Activated else Failed))
    else if key !in s.objects then pub.(pc := PutLatest(None))
    else match env.pointer(s.objects[key].body)
      case Unreadable => pub.(pc := Finished(Failed))
      case Document(v) =>
        if v == Some(VersionOf(env, pub.release)) then pub.(pc := Finished(AlreadyActive))
        else pub.(pc := PutLatest(Some(s.objects[key].tag)), saved := Some(s.objects[key].body))
  }

  /** The store after a request: at most one object written. */
  function Write(s: System, key: string, body: string, tag: string): (r: System) {
    s.(objects := s.objects[key := Object(body, tag)], issued := s.issued[tag := body])
  }

  function AfterRequest(env: Env, s: System, p: nat, reply: Reply): (r: System)
    requires p < |s.pubs|
  {
    var pub := s.pubs[p];
    match EffectOf(env, s, pub, reply)
    case NoWrite => s
    case PutObject => Write(s, FileKey(env, pub), FileBody(env, pub), reply.tag)
    case PutPointer =>
      var key, version := LatestKey(env.prefix), VersionOf(env, pub.release);
      Write(s, key, env.encode(version), reply.tag)
        .(log := s.log + [Activation(p, version, Current(s, key), pub.saved)])
  }

  function Step(env: Env, s: System, m: Move): (r: System) {
    if m.who >= |s.pubs| then s
    else AfterRequest(env, s, m.who, m.reply)
           .(pubs := s.pubs[m.who := NextPublisher(env, s, s.pubs[m.who], m.reply)])
  }

  /** If-Match with a tag, or If-None-Match: *. */
  predicate Matches(s: System, key: string, guard: Option<string>) {
    match guard
    case None => key !in s.objects
    case Some(tag) => key in s.objects && s.objects[key].tag == tag
  }

  function Current(s: System, key: string): (r: Option<string>) {
    if key in s.objects then Some(s.objects[key].body) else None
  }

  function Run(env: Env, s: System, moves: seq<Move>): (r: System)
    decreases |moves|
  {
    if moves == [] then s else Step(env, Run(env, s, moves[..|moves| - 1]), moves[|moves| - 1])
  }

  // ---------------------------------------------------------------- invariants

  /** Every named file of a release is stored under its version with the same digest. */
  ghost predicate Stored(env: Env, objects: map<string, Object>, r: Release, upTo: nat)
    requires Publishable(env, r)
  {
    forall j :: 0 <= j < upTo && j < |r.order| ==>
      var key := ReleaseKey(env.prefix, VersionOf(env, r), r.order[j]);
      && key in objects && r.order[j] in r.files
      && env.hash(objects[key].body) == env.hash(r.files[r.order[j]])
  }

  function Progress(pub: Publisher): (r: nat) {
    match pub.pc
    case Start => 0
    case GetFile(i) => i
    case PutFile(i) => i
    case VerifyFile(i) => i
    case ReadLatest => |pub.release.order|
    case PutLatest(_) => |pub.release.order|
    case Finished(o) => if o == Failed then 0 else |pub.release.order|
  }

  /** A version is complete when its manifest is stored, names that version, and every
      artifact it lists is stored with the listed size and digest. */
  ghost predicate Complete(env: Env, objects: map<string, Object>, version: string) {
    var mk := ReleaseKey(env.prefix, version, MANIFEST);
    && mk in objects
    && env.manifest(objects[mk].body).Some?
    && var m := env.manifest(objects[mk].body).value;
    && m.version == version
    && forall a :: a in m.artifacts ==>
         var key := ReleaseKey(env.prefix, version, a.filename);
         key in objects && |objects[key].body| == a.size && env.hash(objects[key].body) == a.sha256
  }

  /** latest.json is absent or names a complete version. */
  ghost predicate PointerSafe(env: Env, s: System) {
    var key := LatestKey(env.prefix);
    key in s.objects ==>
      && env.pointer(s.objects[key].body).Document?
      && env.pointer(s.objects[key].body).version.Some?
      && Complete(env, s.objects, env.pointer(s.objects[key].body).version.value)
  }

  /** A publisher that has not failed has stored the files before the one it is at. */
  ghost predicate FilesOk(env: Env, objects: map<string, Object>, pub: Publisher) {
    !pub.pc.Start? && pub.pc != Finished(Failed) ==>
      && Publishable(env, pub.release) && Lists(pub.release)
      && Stored(env, objects, pub.release, Progress(pub))
  }

  /** A publisher about to write latest.json has saved the body behind the tag it will match. */
  ghost predicate SavedOk(issued: map<string, string>, pub: Publisher) {
    match pub.pc
    case PutLatest(None) => pub.saved == None
    case PutLatest(Some(tag)) => tag in issued && pub.saved == Some(issued[tag])
    case Finished(_) => true
    case _ => pub.saved == None
  }

  ghost predicate PublisherOk(env: Env, s: System, pub: Publisher) {
    FilesOk(env, s.objects, pub) && SavedOk(s.issued, pub)
  }

  ghost predicate EntryOk(env: Env, s: System, a: Activation) {
    && a.replaced == a.saved
    && a.who < |s.pubs|
    && var r := s.pubs[a.who].release;
    && Publishable(env, r) && Lists(r) && VersionOf(env, r) == a.version
    && Stored(env, s.objects, r, |r.order|)
  }

  ghost predicate LogLinked(env: Env, s: System) {
    && (forall k :: 0 <= k && k + 1 < |s.log| ==> s.log[k + 1].replaced == Some(env.encode(s.log[k].version)))
    && (s.log != [] ==> Current(s, LatestKey(env.prefix)) == Some(env.encode(s.log[|s.log| - 1].version)))
  }

  ghost predicate TagsOk(s: System) {
    forall key :: key in s.objects ==> s.objects[key].tag in s.issued && s.issued[s.objects[key].tag] == s.objects[key].body
  }

  ghost predicate Inv(env: Env, s: System) {
    && TagsOk(s)
    && (forall p :: 0 <= p < |s.pubs| ==> PublisherOk(env, s, s.pubs[p]))
    && PointerSafe(env, s)
    && (forall k :: 0 <= k < |s.log| ==> EntryOk(env, s, s.log[k]))
    && LogLinked(env, s)
  }

  /** Assumptions on the code outside the script: SHA-256 has no collisions and a written
      pointer reads back as the version it was written for. */
  ghost predicate Sound(env: Env) {
    && (forall x, y :: env.hash(x) == env.hash(y) ==> x == y)
    && (forall v :: env.pointer(env.encode(v)) == Document(Some(v)))
  }

  ghost predicate Init(env: Env, s: System) {
    && TagsOk(s) && PointerSafe(env, s) && s.log == []
    && forall p :: 0 <= p < |s.pubs| ==> s.pubs[p].pc == Start && s.pubs[p].saved == None
  }

  /** Nothing under a release changes: old objects keep body and tag, releases stay put,
      tags keep their content, and publishers keep their release. */
  ghost predicate Grows(env: Env, s: System, s': System) {
    && (forall key :: key in s.objects && key != LatestKey(env.prefix) ==> key in s'.objects && s'.objects[key] == s.objects[key])
    && (forall tag :: tag in s.issued ==> tag in s'.issued && s'.issued[tag] == s.issued[tag])
    && |s'.pubs| == |s.pubs|
    && (forall p :: 0 <= p < |s.pubs| ==> s'.pubs[p].release == s.pubs[p].release && s'.pubs[p].activate == s.pubs[p].activate)
    && |s.log| <= |s'.log| && s'.log[..|s.log|] == s.log
  }

  lemma StepGrows(env: Env, s: System, m: Move)
    ensures Grows(env, s, Step(env, s, m))
    ensures forall p :: 0 <= p < |s.pubs| && p != m.who ==> Step(env, s, m).pubs[p] == s.pubs[p]
  {
    if m.who < |s.pubs| {
      NextKeepsRelease(env, s, s.pubs[m.who], m.reply);
      var s' := AfterRequest(env, s, m.who, m.reply);
      assert s'.log[..|s.log|] == s.log;
    }
  }

  lemma NextKeepsRelease(env: Env, s: System, pub: Publisher, reply: Reply)
    ensures NextPublisher(env, s, pub, reply).release == pub.release
    ensures NextPublisher(env, s, pub, reply).activate == pub.activate
  {
  }

  lemma StoredGrows(env: Env, s: System, s': System, r: Release, n: nat)
    requires Publishable(env, r) && Stored(env, s.objects, r, n) && Grows(env, s, s')
    ensures Stored(env, s'.objects, r, n)
  {
    forall j | 0 <= j < n && j < |r.order|
      ensures var key := ReleaseKey(env.prefix, VersionOf(env, r), r.order[j]);
              key in s'.objects && env.hash(s'.objects[key].body) == env.hash(r.files[r.order[j]])
    {
      KeysDiffer(env.prefix, VersionOf(env, r), r.order[j]);
    }
  }

  lemma CompleteGrows(env: Env, s: System, s': System, v: string)
    requires Complete(env, s.objects, v) && Grows(env, s, s')
    ensures Complete(env, s'.objects, v)
  {
    KeysDiffer(env.prefix, v, MANIFEST);
    var m := env.manifest(s.objects[ReleaseKey(env.prefix, v, MANIFEST)].body).value;
    forall a | a in m.artifacts
      ensures var key := ReleaseKey(env.prefix, v, a.filename);
              key in s'.objects && s'.objects[key] == s.objects[key]
    {
      KeysDiffer(env.prefix, v, a.filename);
    }
  }

  lemma OkGrows(env: Env, s: System, s': System, pub: Publisher)
    requires PublisherOk(env, s, pub) && Grows(env, s, s')
    ensures PublisherOk(env, s', pub)
  {
    if !pub.pc.Start? && pub.pc != Finished(Failed) {
      StoredGrows(env, s, s', pub.release, Progress(pub));
    }
  }

  /** Having stored every file with equal digests makes the version complete. */
  lemma StoredIsComplete(env: Env, objects: map<string, Object>, r: Release)
    requires Sound(env) && Publishable(env, r) && Lists(r) && Stored(env, objects, r, |r.order|)
    ensures Complete(env, objects, VersionOf(env, r))
    ensures forall n :: n in r.files ==>
              var key := ReleaseKey(env.prefix, VersionOf(env, r), n); key in objects && objects[key].body == r.files[n]
  {
    var v := VersionOf(env, r);
    forall n | n in r.files
      ensures var key := ReleaseKey(env.prefix, v, n); key in objects && objects[key].body == r.files[n]
    {
      assert n in r.order;
      var j :| 0 <= j < |r.order| && r.order[j] == n;
    }
    var m := env.manifest(r.files[MANIFEST]).value;
    forall a | a in m.artifacts ensures a.filename in r.files {
    }
  }

  // ---------------------------------------------------------------- preservation

  /** The publisher that moves stays consistent. */
  lemma MoverOk(env: Env, s: System, m: Move)
    requires Inv(env, s) && m.who < |s.pubs|
    ensures var s' := Step(env, s, m); PublisherOk(env, s', s'.pubs[m.who])
  {
    var s', pub := Step(env, s, m), s.pubs[m.who];
    StepGrows(env, s, m);
    assert PublisherOk(env, s, pub);
    OkGrows(env, s, s', pub);
    if AtFile(env, pub) {
      FileMoverOk(env, s, s', pub, m.reply);
    } else if AtPointer(env, pub) {
      PointerMoverOk(env, s, s', pub, m.reply);
    }
  }

  lemma FileMoverOk(env: Env, s: System, s': System, pub: Publisher, reply: Reply)
    requires AtFile(env, pub) && PublisherOk(env, s', pub) && Grows(env, s, s')
    ensures PublisherOk(env, s', NextAtFile(env, s, pub, reply))
  {
    var next := NextAtFile(env, s, pub, reply);
    if next.pc != Finished(Failed) {
      if pub.pc.VerifyFile? {
        KeysDiffer(env.prefix, VersionOf(env, pub.release), pub.release.order[pub.pc.i]);
        OneMoreStored(env, s'.objects, pub.release, pub.pc.i);
      }
      assert Progress(next) == if pub.pc.VerifyFile? then pub.pc.i + 1 else pub.pc.i;
    }
  }

  lemma OneMoreStored(env: Env, objects: map<string, Object>, r: Release, i: nat)
    requires Publishable(env, r) && Stored(env, objects, r, i) && i < |r.order| && r.order[i] in r.files
    requires var key := ReleaseKey(env.prefix, VersionOf(env, r), r.order[i]);
             key in objects && env.hash(objects[key].body) == env.hash(r.files[r.order[i]])
    ensures Stored(env, objects, r, i + 1)
  {
  }

  lemma PointerMoverOk(env: Env, s: System, s': System, pub: Publisher, reply: Reply)
    requires AtPointer(env, pub) && PublisherOk(env, s', pub) && Grows(env, s, s') && TagsOk(s)
    ensures PublisherOk(env, s', NextAtPointer(env, s, pub, reply))
  {
    PointerSavedOk(env, s, s', pub, reply);
    PointerProgress(env, s, pub, reply);
    SameFilesOk(env, s'.objects, pub, NextAtPointer(env, s, pub, reply));
  }

  lemma PointerProgress(env: Env, s: System, pub: Publisher, reply: Reply)
    requires AtPointer(env, pub)
    ensures var next := NextAtPointer(env, s, pub, reply);
            && next.release == pub.release
            && (next.pc == Finished(Failed) || (next.pc != Start && Progress(next) == Progress(pub)))
  {
  }

  lemma SameFilesOk(env: Env, objects: map<string, Object>, pub: Publisher, next: Publisher)
    requires FilesOk(env, objects, pub) && pub.pc != Start && pub.pc != Finished(Failed) && next.release == pub.release
    requires next.pc == Finished(Failed) || (next.pc != Start && Progress(next) == Progress(pub))
    ensures FilesOk(env, objects, next)
  {
  }

  lemma PointerSavedOk(env: Env, s: System, s': System, pub: Publisher, reply: Reply)
    requires AtPointer(env, pub) && SavedOk(s'.issued, pub) && Grows(env, s, s') && TagsOk(s)
    ensures SavedOk(s'.issued, NextAtPointer(env, s, pub, reply))
  {
    var key := LatestKey(env.prefix);
    if key in s.objects { assert s.issued[s.objects[key].tag] == s.objects[key].body; }
  }

  ghost predicate WritesLatest(env: Env, s: System, m: Move) {
    m.who < |s.pubs| && EffectOf(env, s, s.pubs[m.who], m.reply).PutPointer?
  }

  /** A step either leaves latest.json and the log alone or is a pointer write. */
  lemma {:induction false} LatestOnlyByActivation(env: Env, s: System, m: Move)
    requires !WritesLatest(env, s, m)
    ensures var s' := Step(env, s, m);
            s'.log == s.log && Current(s', LatestKey(env.prefix)) == Current(s, LatestKey(env.prefix))
  {
    if m.who < |s.pubs| && AtFile(env, s.pubs[m.who]) {
      var pub := s.pubs[m.who];
      KeysDiffer(env.prefix, VersionOf(env, pub.release), pub.release.order[pub.pc.i]);
    }
  }

  lemma EntryGrows(env: Env, s: System, s': System, a: Activation)
    requires EntryOk(env, s, a) && Grows(env, s, s')
    ensures EntryOk(env, s', a)
  {
    var r := s.pubs[a.who].release;
    StoredGrows(env, s, s', r, |r.order|);
  }

  /** The pointer write itself: the saved body is the replaced one and the version's files
      are all stored. */
  lemma ActivationEntry(env: Env, s: System, m: Move)
    requires Inv(env, s) && WritesLatest(env, s, m)
    ensures var s' := Step(env, s, m);
            |s'.log| == |s.log| + 1 && EntryOk(env, s', s'.log[|s.log|])
  {
    var s', pub := Step(env, s, m), s.pubs[m.who];
    StepGrows(env, s, m);
    assert PublisherOk(env, s, pub);
    StoredGrows(env, s, s', pub.release, |pub.release.order|);
    if pub.pc.guard.Some? {
      assert s.issued[pub.pc.guard.value] == s.objects[LatestKey(env.prefix)].body;
    }
  }

  lemma ActivationPointer(env: Env, s: System, m: Move)
    requires Sound(env) && Inv(env, s) && WritesLatest(env, s, m)
    ensures PointerSafe(env, Step(env, s, m))
  {
    var s' := Step(env, s, m);
    ActivationEntry(env, s, m);
    var r := s'.pubs[m.who].release;
    StoredIsComplete(env, s'.objects, r);
  }

  lemma ActivationLinks(env: Env, s: System, m: Move)
    requires LogLinked(env, s) && WritesLatest(env, s, m)
    ensures LogLinked(env, Step(env, s, m))
  {
  }

  lemma StepTags(env: Env, s: System, m: Move)
    requires TagsOk(s)
    ensures TagsOk(Step(env, s, m))
  {
  }

  lemma StepInv(env: Env, s: System, m: Move)
    requires Sound(env) && Inv(env, s)
    ensures Inv(env, Step(env, s, m))
  {
    var s' := Step(env, s, m);
    StepGrows(env, s, m);
    StepTags(env, s, m);
    forall p | 0 <= p < |s'.pubs| ensures PublisherOk(env, s', s'.pubs[p]) {
      if p == m.who { MoverOk(env, s, m); }
      else { assert PublisherOk(env, s, s.pubs[p]); OkGrows(env, s, s', s.pubs[p]); }
    }
    if WritesLatest(env, s, m) {
      ActivationEntry(env, s, m);
      ActivationPointer(env, s, m);
      ActivationLinks(env, s, m);
    } else {
      LatestOnlyByActivation(env, s, m);
      var key := LatestKey(env.prefix);
      if key in s.objects {
        CompleteGrows(env, s, s', env.pointer(s.objects[key].body).version.value);
      }
    }
    forall k | 0 <= k < |s'.log| ensures EntryOk(env, s', s'.log[k]) {
      if k < |s.log| {
        assert s'.log[k] == s'.log[..|s.log|][k] == s.log[k];
        EntryGrows(env, s, s', s.log[k]);
      }
    }
  }

  lemma InitInv(env: Env, s: System)
    requires Init(env, s)
    ensures Inv(env, s)
  {
  }

  lemma {:induction false} RunInv(env: Env, s: System, moves: seq<Move>)
    requires Sound(env) && Inv(env, s)
    ensures Inv(env, Run(env, s, moves))
    decreases |moves|
  {
    if moves != [] {
      RunInv(env, s, moves[..|moves| - 1]);
      StepInv(env, Run(env, s, moves[..|moves| - 1]), moves[|moves| - 1]);
    }
  }

  // ---------------------------------------------------------------- main results

  /** Under every interleaving an object of a release keeps its content and its tag forever
      once it exists. No assumption on hashes or tags is needed. */
  lemma {:induction false} ReleaseObjectsAreImmutable(env: Env, s: System, moves: seq<Move>, version: string, name: string)
    ensures var key := ReleaseKey(env.prefix, version, name);
            key in s.objects ==> key in Run(env, s, moves).objects && Run(env, s, moves).objects[key] == s.objects[key]
    decreases |moves|
  {
    if moves != [] {
      var before := moves[..|moves| - 1];
      ReleaseObjectsAreImmutable(env, s, before, version, name);
      StepGrows(env, Run(env, s, before), moves[|moves| - 1]);
      KeysDiffer(env.prefix, version, name);
    }
  }

  /** In every reachable state latest.json is absent or names a version whose manifest and
      every listed artifact are stored with the listed size and digest. */
  lemma {:induction false} LatestNamesCompleteRelease(env: Env, s: System, moves: seq<Move>)
    requires Sound(env) && Init(env, s)
    ensures PointerSafe(env, Run(env, s, moves))
  {
    InitInv(env, s);
    RunInv(env, s, moves);
  }

  /** Every pointer write saved exactly the pointer that it replaced, and the writes form one
      chain: each replaced the pointer that the previous one wrote. */
  lemma {:induction false} ActivationsSaveWhatTheyReplace(env: Env, s: System, moves: seq<Move>)
    requires Sound(env) && Init(env, s)
    ensures var log := Run(env, s, moves).log;
            && (forall k :: 0 <= k < |log| ==> log[k].saved == log[k].replaced)
            && (forall k :: 0 <= k && k + 1 < |log| ==> log[k + 1].saved == Some(env.encode(log[k].version)))
  {
    InitInv(env, s);
    RunInv(env, s, moves);
    var s' := Run(env, s, moves);
    forall k | 0 <= k < |s'.log| ensures s'.log[k].saved == s'.log[k].replaced {
      assert EntryOk(env, s', s'.log[k]);
    }
  }

  /** Two activations of the same version published the same files with the same contents. */
  lemma {:induction false} ActivationsOfOneVersionAgree(env: Env, s: System, moves: seq<Move>, k: nat, k': nat)
    requires Sound(env) && Init(env, s)
    requires var log := Run(env, s, moves).log; k < |log| && k' < |log| && log[k].version == log[k'].version
    ensures var s' := Run(env, s, moves);
            && s'.log[k].who < |s'.pubs| && s'.log[k'].who < |s'.pubs|
            && s'.pubs[s'.log[k].who].release.files == s'.pubs[s'.log[k'].who].release.files
  {
    InitInv(env, s);
    RunInv(env, s, moves);
    var s' := Run(env, s, moves);
    assert EntryOk(env, s', s'.log[k]) && EntryOk(env, s', s'.log[k']);
    var r, r' := s'.pubs[s'.log[k].who].release, s'.pubs[s'.log[k'].who].release;
    StoredIsComplete(env, s'.objects, r);
    StoredIsComplete(env, s'.objects, r');
    assert r.files[MANIFEST] == r'.files[MANIFEST];
    assert r.files.Keys == r'.files.Keys;
    forall n | n in r.files ensures r.files[n] == r'.files[n] {
    }
  }
}
