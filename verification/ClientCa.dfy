/** Serial numbers as big.Int prints and reads them in base 16. */
module HexSerial {
  import opened Common

  const DIGITS := "0123456789abcdef"

  function Digit(c: char): (r: Option<nat>) {
    if '0' <= c <= '9' then Some((c - '0') as nat)
    else if 'a' <= c <= 'f' then Some((c - 'a') as nat + 10)
    else if 'A' <= c <= 'F' then Some((c - 'A') as nat + 10)
    else None
  }

  /** serial.Text(16) */
  function ToHex(n: nat): (r: string) {
    if n < 16 then [DIGITS[n]] else ToHex(n / 16) + [DIGITS[n % 16]]
  }

  function Value(s: string): (r: Option<nat>) {
    if s == "" then Some(0)
    else
      var high, low := Value(s[..|s| - 1]), Digit(s[|s| - 1]);
      if high.None? || low.None? then None else Some(high.value * 16 + low.value)
  }

  /** SetString(s, 16): an optional sign and at least one digit of either case. */
  function FromHex(s: string): (r: Option<int>) {
    var signed := s != "" && s[0] in {'+', '-'};
    var digits := if signed then s[1..] else s;
    if digits == "" || Value(digits).None? then None
    else
      var v: int := Value(digits).value;
      Some(if signed && s[0] == '-' then -v else v)
  }

  predicate AllHex(s: string) { forall i :: 0 <= i < |s| ==> Digit(s[i]).Some? }

  lemma DigitsBack(k: nat)
    requires k < 16
    ensures Digit(DIGITS[k]) == Some(k)
  {
    assert DIGITS == ['0', '1', '2', '3', '4', '5', '6', '7', '8', '9', 'a', 'b', 'c', 'd', 'e', 'f'];
  }

  lemma {:induction false} ToHexValue(n: nat)
    ensures ToHex(n) != "" && AllHex(ToHex(n)) && Value(ToHex(n)) == Some(n)
  {
    var s := ToHex(n);
    if n < 16 {
      DigitsBack(n);
      assert s[..0] == "";
    } else {
      ToHexValue(n / 16);
      DigitsBack(n % 16);
      assert s[..|s| - 1] == ToHex(n / 16);
    }
  }

  /** Every serial the tool writes reads back as itself. */
  lemma SerialRoundTrip(n: nat)
    ensures FromHex(ToHex(n)) == Some(n) && AllHex(ToHex(n)) && ToHex(n) != ""
  {
    ToHexValue(n);
    assert Digit(ToHex(n)[0]).Some?;
  }
}

/** The factory client CA of scripts/go/factory-client-cert/main.go: a directory whose files are
    replaced one at a time and atomically, by operations that may stop between any two
    replacements. */
module ClientCa {
  import opened Common
  import opened HexSerial

  /** How serials are written: big.Int printing and reading in base 16, and the test for digits. */
  datatype Numerals = Numerals(write: nat -> string, read: string -> Option<int>, digits: string -> bool)

  const HEX := Numerals(ToHex, FromHex, AllHex)

  /** All that matters of them below; HEX is proved to be sound. */
  ghost predicate Sound(h: Numerals) {
    forall n: nat :: h.read(h.write(n)) == Some(n) && h.digits(h.write(n)) && h.write(n) != ""
  }

  lemma HexIsSound()
    ensures Sound(HEX)
  {
    forall n: nat ensures HEX.read(HEX.write(n)) == Some(n) && HEX.digits(HEX.write(n)) && HEX.write(n) != "" {
      SerialRoundTrip(n);
    }
  }

  lemma PrintReads(h: Numerals, n: nat)
    requires Sound(h)
    ensures h.read(h.write(n)) == Some(n) && h.digits(h.write(n)) && h.write(n) != ""
  {
  }

  datatype Issuance = Issuance(serial: string, cloudId: string, factoryId: string, expiresAt: int, revokedAt: Option<int>)
  datatype Entry = Entry(serial: int, at: int)
  datatype Crl = Crl(signer: nat, entries: seq<Entry>)

  /** The files, None when absent. The key is known by an identity that its certificate and the
      lists it signs carry; issued collects the serials of every certificate ever written. */
  datatype Disk = Disk(key: Option<nat>, crt: Option<nat>, registry: Option<seq<Issuance>>, crl: Option<Crl>,
                       outputs: set<string>, issued: set<nat>)

  datatype Write = ToKey(key: nat) | ToCrt(crt: nat) | ToRegistry(registry: seq<Issuance>) | ToCrl(crl: Crl)
                 | ToOutput(path: string, serial: nat)

  const EMPTY := Disk(None, None, None, None, {}, {})

  function Put(d: Disk, w: Write): (r: Disk) {
    match w
    case ToKey(k) => d.(key := Some(k))
    case ToCrt(k) => d.(crt := Some(k))
    case ToRegistry(r) => d.(registry := Some(r))
    case ToCrl(c) => d.(crl := Some(c))
    case ToOutput(path, n) => d.(outputs := d.outputs + {path}, issued := d.issued + {n})
  }

  function PutAll(d: Disk, ws: seq<Write>): (r: Disk) {
    if ws == [] then d else Put(PutAll(d, ws[..|ws| - 1]), ws[|ws| - 1])
  }

  // ---- what each operation replaces, in order; None is an error before anything is written ----

  /** The CRL entries of a registry; None for a serial that is no number. */
  function Entries(h: Numerals, r: seq<Issuance>): (out: Option<seq<Entry>>) {
    if r == [] then Some([])
    else
      var before, last := Entries(h, r[..|r| - 1]), r[|r| - 1];
      if before.None? then None
      else if last.revokedAt.None? then before
      else if h.read(last.serial).None? then None
      else Some(before.value + [Entry(h.read(last.serial).value, last.revokedAt.value)])
  }

  function RevokeItem(item: Issuance, serial: string, now: int): (r: Issuance) {
    if item.serial == serial && item.revokedAt.None? then item.(revokedAt := Some(now)) else item
  }

  function RevokeIn(r: seq<Issuance>, serial: string, now: int): (s: seq<Issuance>)
    ensures |s| == |r| && forall i :: 0 <= i < |r| ==> s[i] == RevokeItem(r[i], serial, now)
  {
    seq(|r|, i requires 0 <= i < |r| => RevokeItem(r[i], serial, now))
  }

  predicate HasSerial(r: seq<Issuance>, serial: string) {
    exists i :: 0 <= i < |r| && r[i].serial == serial
  }

  /** updateCRL: needs the CA on disk and a readable registry. */
  function CrlWrite(h: Numerals, d: Disk, r: seq<Issuance>): (out: Option<Write>) {
    if d.crt.None? || d.key.None? || Entries(h, r).None? then None
    else Some(ToCrl(Crl(d.key.value, Entries(h, r).value)))
  }

  datatype Target = CaFile | Output(path: string)

  datatype Op =
    | Init(key: nat)
    | Sign(valid: bool, out: Target, serial: nat, cloudId: string, factoryId: string, expiresAt: int)
    | Revoke(hex: string, now: int)
    | Refresh

  function Plan(h: Numerals, d: Disk, op: Op): (r: Option<seq<Write>>) {
    match op
    case Init(k) =>
      if d.key.Some? then None else Some([ToKey(k), ToCrt(k), ToRegistry([]), ToCrl(Crl(k, []))])
    case Sign(valid, out, n, cloud, factory, expires) =>
      if !valid || out.CaFile? || out.path in d.outputs || d.crt.None? || d.key.None? || d.registry.None? then None
      else Some([ToOutput(out.path, n),
                 ToRegistry(d.registry.value + [Issuance(h.write(n), cloud, factory, expires, None)])])
    case Revoke(s, now) =>
      if s == "" || !h.digits(s) || d.registry.None? || !HasSerial(d.registry.value, s) then None
      else
        var r := RevokeIn(d.registry.value, s, now);
        var c := CrlWrite(h, d, r);
        if c.None? then None else Some([c.value, ToRegistry(r)])
    case Refresh =>
      if d.registry.None? then None
      else
        var c := CrlWrite(h, d, d.registry.value);
        if c.None? then None else Some([c.value])
  }

  // ---- runs ----

  /** An operation that gets as far as the given number of replacements. */
  datatype Event = Event(op: Op, reach: nat)

  function Step(h: Numerals, d: Disk, e: Event): (r: Disk) {
    match Plan(h, d, e.op)
    case None => d
    case Some(ws) => PutAll(d, ws[..Min(e.reach, |ws|)])
  }

  /** The operation made all its replacements; it cannot have reported success otherwise. */
  predicate Completed(h: Numerals, d: Disk, e: Event) {
    Plan(h, d, e.op).Some? && e.reach >= |Plan(h, d, e.op).value|
  }

  function Run(h: Numerals, d: Disk, es: seq<Event>): (r: Disk) {
    if es == [] then d else Step(h, Run(h, d, es[..|es| - 1]), es[|es| - 1])
  }

  // ---- the invariant ----

  predicate InCrl(d: Disk, n: int) {
    d.crl.Some? && Lists(d.crl.value.entries, n)
  }

  predicate Lists(entries: seq<Entry>, n: int) {
    exists i :: 0 <= i < |entries| && entries[i].serial == n
  }

  predicate Marks(h: Numerals, item: Issuance, n: int) { item.revokedAt.Some? && h.read(item.serial) == Some(n) }

  predicate RevokedIn(h: Numerals, r: seq<Issuance>, n: int) {
    exists i :: 0 <= i < |r| && Marks(h, r[i], n)
  }

  /** The registry on disk marks n revoked. */
  predicate Recorded(h: Numerals, d: Disk, n: int) { d.registry.Some? && RevokedIn(h, d.registry.value, n) }

  predicate Registered(h: Numerals, d: Disk, n: nat) { d.registry.Some? && HasSerial(d.registry.value, h.write(n)) }

  /** The text is how the number of an issued certificate is printed. */
  predicate IsPrint(h: Numerals, s: string, issued: set<nat>) {
    var v := h.read(s);
    v.Some? && v.value >= 0 && v.value in issued && h.write(v.value) == s
  }

  /** Every serial in the registry was printed from the number of an issued certificate. */
  predicate Printed(h: Numerals, r: seq<Issuance>, issued: set<nat>) {
    forall i :: 0 <= i < |r| ==> IsPrint(h, r[i].serial, issued)
  }

  /** Files appear in the order of init, and everything signed is signed by the key on disk. */
  predicate Ordered(d: Disk) {
    && (d.crt.Some? ==> d.crt == d.key)
    && (d.registry.Some? ==> d.crt.Some?)
    && (d.crl.Some? ==> d.registry.Some? && d.key == Some(d.crl.value.signer))
  }

  ghost predicate Safe(h: Numerals, d: Disk) { forall n :: Recorded(h, d, n) ==> InCrl(d, n) }

  ghost predicate Inv(h: Numerals, d: Disk) {
    && Ordered(d)
    && Safe(h, d)
    && (d.registry.Some? ==> Printed(h, d.registry.value, d.issued))
  }

  lemma RevokedAppend(h: Numerals, r: seq<Issuance>, item: Issuance, n: int)
    ensures RevokedIn(h, r + [item], n) <==> RevokedIn(h, r, n) || Marks(h, item, n)
  {
    var all := r + [item];
    assert all[|r|] == item && forall i :: 0 <= i < |r| ==> all[i] == r[i];
    if RevokedIn(h, r, n) {
      var i :| 0 <= i < |r| && Marks(h, r[i], n);
      assert Marks(h, all[i], n);
    }
    if Marks(h, item, n) { assert Marks(h, all[|r|], n); }
  }

  lemma ListsAppend(es: seq<Entry>, e: Entry, n: int)
    ensures Lists(es + [e], n) <==> Lists(es, n) || e.serial == n
  {
    var all := es + [e];
    assert all[|es|] == e && forall i :: 0 <= i < |es| ==> all[i] == es[i];
  }

  /** A CRL made from a registry lists exactly the serials it marks revoked. */
  lemma {:induction false} EntriesExact(h: Numerals, r: seq<Issuance>, n: int)
    requires Entries(h, r).Some?
    ensures RevokedIn(h, r, n) <==> Lists(Entries(h, r).value, n)
    decreases |r|
  {
    if r != [] {
      var m := |r| - 1;
      EntriesExact(h, r[..m], n);
      assert r == r[..m] + [r[m]];
      RevokedAppend(h, r[..m], r[m], n);
      if r[m].revokedAt.Some? {
        ListsAppend(Entries(h, r[..m]).value, Entry(h.read(r[m].serial).value, r[m].revokedAt.value), n);
      }
    }
  }

  lemma {:induction false} PrintedEntries(h: Numerals, r: seq<Issuance>, issued: set<nat>)
    requires Printed(h, r, issued)
    ensures Entries(h, r).Some?
    decreases |r|
  {
    if r != [] {
      var m := |r| - 1;
      assert forall i :: 0 <= i < m ==> r[..m][i] == r[i];
      PrintedEntries(h, r[..m], issued);
      assert IsPrint(h, r[m].serial, issued);
    }
  }

  /** Revoking marks the named serial and nothing else. */
  lemma RevokeInExact(h: Numerals, r: seq<Issuance>, n: nat, now: int, m: int)
    requires Sound(h)
    ensures RevokedIn(h, RevokeIn(r, h.write(n), now), m) <==> RevokedIn(h, r, m) || (m == n && HasSerial(r, h.write(n)))
  {
    var s := RevokeIn(r, h.write(n), now);
    PrintReads(h, n);
    if RevokedIn(h, r, m) {
      var i :| 0 <= i < |r| && Marks(h, r[i], m);
      assert Marks(h, s[i], m);
    }
    if m == n && HasSerial(r, h.write(n)) {
      var i :| 0 <= i < |r| && r[i].serial == h.write(n);
      assert Marks(h, s[i], n);
    }
    if RevokedIn(h, s, m) && !RevokedIn(h, r, m) {
      var i :| 0 <= i < |s| && Marks(h, s[i], m);
      assert !Marks(h, r[i], m);
      assert r[i].revokedAt.None? && r[i].serial == h.write(n);
    }
  }

  lemma PrintedIsHex(h: Numerals, r: seq<Issuance>, issued: set<nat>, s: string) returns (n: nat)
    requires Printed(h, r, issued) && HasSerial(r, s)
    ensures n in issued && s == h.write(n)
  {
    var i :| 0 <= i < |r| && r[i].serial == s;
    assert IsPrint(h, r[i].serial, issued);
    n := h.read(s).value;
  }

  lemma PutSome(d: Disk, ws: seq<Write>, k: nat)
    requires k <= |ws| <= 4
    ensures k == 0 ==> PutAll(d, ws[..k]) == d
    ensures k == 1 ==> PutAll(d, ws[..k]) == Put(d, ws[0])
    ensures k == 2 ==> PutAll(d, ws[..k]) == Put(Put(d, ws[0]), ws[1])
    ensures k == 3 ==> PutAll(d, ws[..k]) == Put(Put(Put(d, ws[0]), ws[1]), ws[2])
    ensures k == 4 ==> PutAll(d, ws[..k]) == Put(Put(Put(Put(d, ws[0]), ws[1]), ws[2]), ws[3])
  {
    if k >= 1 { PutNext(d, ws, k); }
    if k >= 2 { PutNext(d, ws, k - 1); }
    if k >= 3 { PutNext(d, ws, k - 2); }
    if k >= 4 { PutNext(d, ws, k - 3); }
  }

  lemma PutNext(d: Disk, ws: seq<Write>, k: nat)
    requires 0 < k <= |ws|
    ensures PutAll(d, ws[..k]) == Put(PutAll(d, ws[..k - 1]), ws[k - 1])
  {
    assert ws[..k][..k - 1] == ws[..k - 1];
  }

  lemma InitKeeps(h: Numerals, d: Disk, k: nat, reach: nat)
    requires Inv(h, d)
    ensures Inv(h, Step(h, d, Event(Init(k), reach)))
  {
    var p := Plan(h, d, Init(k));
    if p.Some? { PutSome(d, p.value, Min(reach, 4)); }
  }

  /** An accepted signing: the registry it ends with, and the state it leaves wherever it stops. */
  lemma SignStep(h: Numerals, d: Disk, op: Op, reach: nat) returns (r: seq<Issuance>, item: Issuance)
    requires op.Sign? && Plan(h, d, op).Some?
    ensures item.serial == h.write(op.serial) && item.revokedAt.None? && r == d.registry.value + [item]
    ensures Plan(h, d, op) == Some([ToOutput(op.out.path, op.serial), ToRegistry(r)])
    ensures var written := d.(outputs := d.outputs + {op.out.path}, issued := d.issued + {op.serial});
            Step(h, d, Event(op, reach)) ==
            if reach == 0 then d else if reach == 1 then written else written.(registry := Some(r))
  {
    item := Issuance(h.write(op.serial), op.cloudId, op.factoryId, op.expiresAt, None);
    r := d.registry.value + [item];
    PutSome(d, [ToOutput(op.out.path, op.serial), ToRegistry(r)], Min(reach, 2));
  }

  lemma PrintedMore(h: Numerals, r: seq<Issuance>, issued: set<nat>, n: nat, item: Issuance)
    requires Sound(h)
    requires Printed(h, r, issued) && item.serial == h.write(n)
    ensures Printed(h, r, issued + {n}) && Printed(h, r + [item], issued + {n})
  {
    PrintReads(h, n);
    forall i | 0 <= i < |r| ensures IsPrint(h, r[i].serial, issued + {n}) { assert IsPrint(h, r[i].serial, issued); }
  }

  lemma SignedKeeps(h: Numerals, d: Disk, path: string, n: nat, item: Issuance)
    requires Sound(h)
    requires Inv(h, d) && d.crt.Some? && d.registry.Some? && item.serial == h.write(n) && item.revokedAt.None?
    ensures var written := d.(outputs := d.outputs + {path}, issued := d.issued + {n});
            Inv(h, written) && Inv(h, written.(registry := Some(d.registry.value + [item])))
  {
    var written := d.(outputs := d.outputs + {path}, issued := d.issued + {n});
    var r := d.registry.value;
    PrintedMore(h, r, d.issued, n, item);
    assert Safe(h, written) by {
      forall m | Recorded(h, written, m) ensures InCrl(written, m) { assert Recorded(h, d, m); }
    }
    var after := written.(registry := Some(r + [item]));
    assert Safe(h, after) by {
      forall m | Recorded(h, after, m) ensures InCrl(after, m) {
        RevokedAppend(h, r, item, m);
        assert Recorded(h, d, m);
      }
    }
  }

  lemma SignKeeps(h: Numerals, d: Disk, op: Op, reach: nat)
    requires Sound(h)
    requires Inv(h, d) && op.Sign?
    ensures Inv(h, Step(h, d, Event(op, reach)))
  {
    if Plan(h, d, op).Some? {
      var r, item := SignStep(h, d, op, reach);
      SignedKeeps(h, d, op.out.path, op.serial, item);
    }
  }

  lemma RefreshKeeps(h: Numerals, d: Disk, reach: nat)
    requires Sound(h)
    requires Inv(h, d)
    ensures Inv(h, Step(h, d, Event(Refresh, reach)))
  {
    var p := Plan(h, d, Refresh);
    if p.Some? {
      PutSome(d, p.value, Min(reach, 1));
      forall n { EntriesExact(h, d.registry.value, n); }
    }
  }

  /** A revocation of a registered serial: its plan, and the state it leaves wherever it stops. */
  lemma RevokeStep(h: Numerals, d: Disk, n: nat, now: int, reach: nat) returns (marked: seq<Issuance>, c: Crl)
    requires Sound(h)
    requires Inv(h, d) && Registered(h, d, n)
    ensures marked == RevokeIn(d.registry.value, h.write(n), now) && Printed(h, marked, d.issued)
    ensures Entries(h, marked) == Some(c.entries) && d.key == Some(c.signer)
    ensures Plan(h, d, Revoke(h.write(n), now)) == Some([ToCrl(c), ToRegistry(marked)])
    ensures Step(h, d, Event(Revoke(h.write(n), now), reach)) ==
            if reach == 0 then d else if reach == 1 then d.(crl := Some(c)) else d.(crl := Some(c), registry := Some(marked))
  {
    var s := h.write(n);
    PrintReads(h, n);
    marked := RevokeIn(d.registry.value, s, now);
    assert Printed(h, marked, d.issued);
    PrintedEntries(h, marked, d.issued);
    c := Crl(d.key.value, Entries(h, marked).value);
    var ws := [ToCrl(c), ToRegistry(marked)];
    assert Plan(h, d, Revoke(s, now)) == Some(ws);
    PutSome(d, ws, Min(reach, 2));
  }

  lemma RegisteredIs(h: Numerals, d: Disk, s: string, now: int) returns (n: nat)
    requires Sound(h)
    requires Inv(h, d) && Plan(h, d, Revoke(s, now)).Some?
    ensures s == h.write(n) && Registered(h, d, n)
  {
    n := PrintedIsHex(h, d.registry.value, d.issued, s);
  }

  lemma MarkedIsListed(h: Numerals, d: Disk, n: nat, now: int, marked: seq<Issuance>, c: Crl)
    requires Sound(h)
    requires d.registry.Some? && marked == RevokeIn(d.registry.value, h.write(n), now) && Entries(h, marked) == Some(c.entries)
    ensures Safe(h, d.(crl := Some(c))) && Safe(h, d.(crl := Some(c), registry := Some(marked)))
  {
    forall m ensures (Recorded(h, d, m) ==> Lists(c.entries, m)) && (RevokedIn(h, marked, m) ==> Lists(c.entries, m)) {
      RevokeInExact(h, d.registry.value, n, now, m);
      EntriesExact(h, marked, m);
    }
  }

  lemma RevokeKeeps(h: Numerals, d: Disk, s: string, now: int, reach: nat)
    requires Sound(h)
    requires Inv(h, d)
    ensures Inv(h, Step(h, d, Event(Revoke(s, now), reach)))
  {
    if Plan(h, d, Revoke(s, now)).Some? {
      var n := RegisteredIs(h, d, s, now);
      var marked, c := RevokeStep(h, d, n, now, reach);
      MarkedIsListed(h, d, n, now, marked, c);
    }
  }

  lemma StepKeeps(h: Numerals, d: Disk, e: Event)
    requires Sound(h)
    requires Inv(h, d)
    ensures Inv(h, Step(h, d, e))
  {
    match e.op
    case Init(k) => InitKeeps(h, d, k, e.reach);
    case Sign(_, _, _, _, _, _) => SignKeeps(h, d, e.op, e.reach);
    case Revoke(s, now) => RevokeKeeps(h, d, s, now, e.reach);
    case Refresh => RefreshKeeps(h, d, e.reach);
  }

  /** From an empty directory, through any operations stopped anywhere: every serial the registry
      marks revoked is in the CRL on disk, and that CRL is signed by the key on disk. */
  lemma {:induction false} RunKeeps(h: Numerals, es: seq<Event>)
    requires Sound(h)
    ensures Inv(h, Run(h, EMPTY, es))
    decreases |es|
  {
    if es != [] {
      RunKeeps(h, es[..|es| - 1]);
      StepKeeps(h, Run(h, EMPTY, es[..|es| - 1]), es[|es| - 1]);
    }
  }

  /** No step, complete or not, takes a revocation out of the registry. */
  lemma RecordedStays(h: Numerals, d: Disk, e: Event, n: int)
    requires Sound(h)
    requires Inv(h, d) && Recorded(h, d, n)
    ensures Recorded(h, Step(h, d, e), n)
  {
    var p := Plan(h, d, e.op);
    if p.Some? {
      match e.op {
        case Init(_) => assert false;
        case Sign(_, _, _, _, _, _) => SignStays(h, d, e, n);
        case Revoke(s, now) =>
          var k := RegisteredIs(h, d, s, now);
          var marked, c := RevokeStep(h, d, k, now, e.reach);
          RevokeInExact(h, d.registry.value, k, now, n);
        case Refresh =>
          PutSome(d, p.value, Min(e.reach, 1));
      }
    }
  }

  lemma SignStays(h: Numerals, d: Disk, e: Event, n: int)
    requires Sound(h)
    requires Inv(h, d) && Recorded(h, d, n) && e.op.Sign? && Plan(h, d, e.op).Some?
    ensures Recorded(h, Step(h, d, e), n)
  {
    var r, item := SignStep(h, d, e.op, e.reach);
    RevokedAppend(h, d.registry.value, item, n);
  }

  /** What a completed revocation leaves behind. */
  lemma CompletedRevoke(h: Numerals, d: Disk, e: Event) returns (n: nat)
    requires Sound(h)
    requires Inv(h, d) && e.op.Revoke? && Completed(h, d, e)
    ensures e.op.hex == h.write(n) && Recorded(h, Step(h, d, e), n)
  {
    n := RegisteredIs(h, d, e.op.hex, e.op.now);
    var marked, c := RevokeStep(h, d, n, e.op.now, e.reach);
    RevokeInExact(h, d.registry.value, n, e.op.now, n);
  }

  /** After a revocation that reported success, the serial is in the CRL of every later state,
      whatever happens in between and wherever it is cut off. */
  lemma {:induction false} RevocationIsFinal(h: Numerals, before: seq<Event>, e: Event, later: seq<Event>, n: nat)
    requires Sound(h)
    requires e.op.Revoke? && e.op.hex == h.write(n) && Completed(h, Run(h, EMPTY, before), e)
    ensures InCrl(Run(h, Step(h, Run(h, EMPTY, before), e), later), n)
  {
    var d := Run(h, EMPTY, before);
    RunKeeps(h, before);
    var m := CompletedRevoke(h, d, e);
    PrintReads(h, m);
    PrintReads(h, n);
    StepKeeps(h, d, e);
    RecordedThrough(h, Step(h, d, e), later, n);
  }

  lemma {:induction false} RecordedThrough(h: Numerals, d: Disk, later: seq<Event>, n: int)
    requires Sound(h)
    requires Inv(h, d) && Recorded(h, d, n)
    ensures Inv(h, Run(h, d, later)) && Recorded(h, Run(h, d, later), n) && InCrl(Run(h, d, later), n)
    decreases |later|
  {
    if later != [] {
      var k := |later| - 1;
      RecordedThrough(h, d, later[..k], n);
      RecordedStays(h, Run(h, d, later[..k]), later[k], n);
      StepKeeps(h, Run(h, d, later[..k]), later[k]);
    }
  }

  /** The converse fails between the two replacements of a revocation: a refreshed CRL lists a
      serial exactly when the registry does, so a revocation cut off after its CRL is lost. */
  lemma RefreshListsExactly(h: Numerals, d: Disk, n: int)
    requires Sound(h)
    requires Inv(h, d) && d.registry.Some?
    ensures Plan(h, d, Refresh).Some?
    ensures InCrl(Step(h, d, Event(Refresh, 1)), n) <==> Recorded(h, d, n)
  {
    PrintedEntries(h, d.registry.value, d.issued);
    PutSome(d, Plan(h, d, Refresh).value, 1);
    EntriesExact(h, d.registry.value, n);
  }

  lemma HalfRevocationIsLost(h: Numerals, d: Disk, n: nat, now: int)
    requires Sound(h)
    requires Inv(h, d) && Registered(h, d, n) && !Recorded(h, d, n)
    ensures var half := Step(h, d, Event(Revoke(h.write(n), now), 1));
            InCrl(half, n) && !InCrl(Step(h, half, Event(Refresh, 1)), n)
  {
    var half := Step(h, d, Event(Revoke(h.write(n), now), 1));
    var marked, c := RevokeStep(h, d, n, now, 1);
    RevokeInExact(h, d.registry.value, n, now, n);
    EntriesExact(h, marked, n);
    RevokeKeeps(h, d, h.write(n), now, 1);
    RefreshListsExactly(h, half, n);
  }

  /** In any reachable directory a revocation is accepted exactly for the canonical spelling of a
      registered serial: other spellings of the same number, upper case say, are not found. */
  lemma RevokeAcceptedExactly(h: Numerals, d: Disk, s: string, now: int)
    requires Sound(h)
    requires Inv(h, d)
    ensures Plan(h, d, Revoke(s, now)).Some? <==> exists n: nat :: s == h.write(n) && Registered(h, d, n)
  {
    if d.registry.Some? && HasSerial(d.registry.value, s) {
      var n := PrintedIsHex(h, d.registry.value, d.issued, s);
      PrintReads(h, n);
      assert Printed(h, RevokeIn(d.registry.value, s, now), d.issued);
      PrintedEntries(h, RevokeIn(d.registry.value, s, now), d.issued);
      assert Registered(h, d, n);
    }
  }

  lemma NotIssuedNotRegistered(h: Numerals, d: Disk, n: nat)
    requires Sound(h) && Inv(h, d) && n !in d.issued
    ensures !Registered(h, d, n)
  {
    PrintReads(h, n);
    if d.registry.Some? {
      var r := d.registry.value;
      forall i | 0 <= i < |r| ensures r[i].serial != h.write(n) { assert IsPrint(h, r[i].serial, d.issued); }
    }
  }

  /** The certificate is written before it is registered: an issued serial is left unregistered,
      hence beyond revocation, exactly when signing is cut off between its two replacements. */
  lemma SignCutExactly(h: Numerals, d: Disk, op: Op, reach: nat)
    requires Sound(h)
    requires Inv(h, d) && op.Sign? && Plan(h, d, op).Some? && op.serial !in d.issued
    ensures var after := Step(h, d, Event(op, reach));
            op.serial in after.issued && !Registered(h, after, op.serial) <==> reach == 1
  {
    var r := d.registry.value;
    PutSome(d, Plan(h, d, op).value, Min(reach, 2));
    PrintReads(h, op.serial);
    NotIssuedNotRegistered(h, d, op.serial);
    if reach >= 2 {
      var after := Step(h, d, Event(op, reach)).registry.value;
      assert after[|r|].serial == h.write(op.serial);
    }
  }

  // ---- why the operations must not overlap ----

  /** The writes of two operations in some order that keeps each one's own. */
  ghost predicate IsMerge(ws: seq<Write>, a: seq<Write>, b: seq<Write>)
    decreases |ws|
  {
    if ws == [] then a == [] && b == []
    else
      || (a != [] && ws[0] == a[0] && IsMerge(ws[1..], a[1..], b))
      || (b != [] && ws[0] == b[0] && IsMerge(ws[1..], a, b[1..]))
  }

  lemma {:induction false} MergeSwaps(ws: seq<Write>, a: seq<Write>, b: seq<Write>)
    requires IsMerge(ws, a, b)
    ensures IsMerge(ws, b, a)
    decreases |ws|
  {
    if ws != [] {
      if a != [] && ws[0] == a[0] && IsMerge(ws[1..], a[1..], b) { MergeSwaps(ws[1..], a[1..], b); }
      else { MergeSwaps(ws[1..], a, b[1..]); }
    }
  }

  lemma {:induction false} MergeWithNone(ws: seq<Write>, b: seq<Write>)
    ensures IsMerge(ws, [], b) <==> ws == b
    decreases |ws|
  {
    if ws != [] && b != [] {
      MergeWithNone(ws[1..], b[1..]);
      assert ws == [ws[0]] + ws[1..] && b == [b[0]] + b[1..];
    }
  }

  lemma {:induction false} MergeWithOne(ws: seq<Write>, x: Write, b: seq<Write>)
    requires IsMerge(ws, [x], b) && |b| <= 2
    ensures |ws| == |b| + 1
    ensures || ws == [x] + b
            || (|b| >= 1 && ws == [b[0], x] + b[1..])
            || (|b| == 2 && ws == b + [x])
    decreases |b|
  {
    assert ws == [ws[0]] + ws[1..];
    if ws[0] == x && IsMerge(ws[1..], [x][1..], b) {
      MergeWithNone(ws[1..], b);
    } else {
      MergeWithOne(ws[1..], x, b[1..]);
    }
  }

  /** The six merges of two writes with two writes. */
  lemma {:induction false} MergeOfTwos(ws: seq<Write>, a: seq<Write>, b: seq<Write>)
    requires IsMerge(ws, a, b) && |a| == |b| == 2
    ensures || ws == [a[0], a[1], b[0], b[1]] || ws == [a[0], b[0], a[1], b[1]] || ws == [a[0], b[0], b[1], a[1]]
            || ws == [b[0], a[0], a[1], b[1]] || ws == [b[0], a[0], b[1], a[1]] || ws == [b[0], b[1], a[0], a[1]]
  {
    assert ws == [ws[0]] + ws[1..] && a == [a[0], a[1]] && b == [b[0], b[1]];
    if ws[0] == a[0] && IsMerge(ws[1..], a[1..], b) {
      assert a[1..] == [a[1]];
      MergeWithOne(ws[1..], a[1], b);
    } else {
      assert b[1..] == [b[1]];
      MergeSwaps(ws[1..], a, b[1..]);
      MergeWithOne(ws[1..], b[1], a);
    }
  }

  lemma {:induction false} MergeBehind(first: seq<Write>, ws: seq<Write>, a: seq<Write>, b: seq<Write>)
    requires first <= a && IsMerge(ws, a[|first|..], b)
    ensures IsMerge(first + ws, a, b)
    decreases |first|
  {
    if first == [] {
      assert [] + ws == ws && a[0..] == a;
    } else {
      assert a[1..][|first[1..]|..] == a[|first|..];
      MergeBehind(first[1..], ws, a[1..], b);
      assert (first + ws)[1..] == first[1..] + ws;
    }
  }

  /** Two revocations that both read the registry before either has written it leave, in whatever
      order their replacements then fall, some moment at which the registry on disk marks a serial
      that the CRL on disk does not list: for any two registered serials not yet revoked. */
  lemma OverlapIsUnsafe(h: Numerals, d: Disk, a: nat, b: nat, now: int, fast: seq<Write>, slow: seq<Write>, ws: seq<Write>)
    requires Sound(h) && Inv(h, d)
    requires a != b && Registered(h, d, a) && Registered(h, d, b) && !Recorded(h, d, a) && !Recorded(h, d, b)
    requires Plan(h, d, Revoke(h.write(a), now)) == Some(fast) && Plan(h, d, Revoke(h.write(b), now)) == Some(slow)
    requires IsMerge(ws, fast, slow)
    ensures |ws| == 4 && exists p: nat :: p <= 4 && !Safe(h, PutAll(d, ws[..p]))
  {
    var marked, first := RevokeStep(h, d, a, now, 0);
    var other, second := RevokeStep(h, d, b, now, 0);
    LostMark(h, d, a, b, now, marked, other, second);
    LostMark(h, d, b, a, now, other, marked, first);
    var p := CrossedState(d, ws, first, marked, second, other);
    assert !Safe(h, PutAll(d, ws[..p]));
  }

  /** Some moment of the merge holds the registry of one and the CRL of the other. */
  lemma CrossedState(d: Disk, ws: seq<Write>, c: Crl, r: seq<Issuance>, c': Crl, r': seq<Issuance>) returns (p: nat)
    requires IsMerge(ws, [ToCrl(c), ToRegistry(r)], [ToCrl(c'), ToRegistry(r')])
    ensures |ws| == 4 && p <= 4
    ensures PutAll(d, ws[..p]) == d.(crl := Some(c'), registry := Some(r))
         || PutAll(d, ws[..p]) == d.(crl := Some(c), registry := Some(r'))
  {
    MergeOfTwos(ws, [ToCrl(c), ToRegistry(r)], [ToCrl(c'), ToRegistry(r')]);
    PutSome(d, ws, 3);
    PutSome(d, ws, 4);
    var third := PutAll(d, ws[..3]);
    p := if third == d.(crl := Some(c'), registry := Some(r)) || third == d.(crl := Some(c), registry := Some(r'))
         then 3 else 4;
    assert ws[..4] == ws;
  }

  /** What a plan depends on: the files that a CRL or a certificate replaces are not among it. */
  lemma PlanUnmoved(h: Numerals, d: Disk, w: Write, op: Op)
    requires (op.Revoke? && (w.ToCrl? || w.ToOutput?)) || (op.Sign? && w.ToCrl?)
    ensures Plan(h, Put(d, w), op) == Plan(h, d, op)
  {
  }

  /** Exactly when two revocations are safe: the first reads the registry, the second reads it after
      j of the first one's replacements, and from then on the replacements fall in any order. Every
      moment keeps the marked serials in the CRL if and only if the second one read last of all. */
  lemma RevocationsSafeExactly(h: Numerals, d: Disk, a: nat, b: nat, now: int, j: nat,
                               fast: seq<Write>, slow: seq<Write>, ws: seq<Write>)
    requires Sound(h) && Inv(h, d) && j <= 2
    requires a != b && Registered(h, d, a) && Registered(h, d, b) && !Recorded(h, d, a) && !Recorded(h, d, b)
    requires Plan(h, d, Revoke(h.write(a), now)) == Some(fast) && |fast| == 2
    requires Plan(h, PutAll(d, fast[..j]), Revoke(h.write(b), now)) == Some(slow)
    requires IsMerge(ws, fast[j..], slow)
    ensures (forall p: nat :: p <= |fast[..j] + ws| ==> Safe(h, PutAll(d, (fast[..j] + ws)[..p]))) <==> j == 2
  {
    var all := fast[..j] + ws;
    if j < 2 {
      var marked, c := RevokeStep(h, d, a, now, 0);
      assert fast[0] == ToCrl(c);
      PutSome(d, fast, j);
      PlanUnmoved(h, d, fast[0], Revoke(h.write(b), now));
      MergeBehind(fast[..j], ws, fast, slow);
      OverlapIsUnsafe(h, d, a, b, now, fast, slow, all);
    } else {
      MergeWithNone(ws, slow);
      assert all == fast + slow;
      forall p: nat | p <= |all| ensures Safe(h, PutAll(d, all[..p])) {
        InTurn(h, d, Revoke(h.write(a), now), Revoke(h.write(b), now), fast, slow, p);
      }
    }
  }

  lemma {:induction false} PutAllMore(d: Disk, a: seq<Write>, b: seq<Write>)
    ensures PutAll(d, a + b) == PutAll(PutAll(d, a), b)
    decreases |b|
  {
    if b == [] {
      assert a + b == a;
    } else {
      var n := |b| - 1;
      PutAllMore(d, a, b[..n]);
      assert (a + b)[..|a| + n] == a + b[..n];
    }
  }

  /** Operations made one after the other are steps of a run, each prefix of them is. */
  lemma InTurn(h: Numerals, d: Disk, first: Op, second: Op, fast: seq<Write>, slow: seq<Write>, p: nat)
    requires Sound(h) && Inv(h, d) && Plan(h, d, first) == Some(fast)
    requires Plan(h, PutAll(d, fast), second) == Some(slow) && p <= |fast + slow|
    ensures Inv(h, PutAll(d, (fast + slow)[..p]))
  {
    var middle := Step(h, d, Event(first, |fast|));
    assert fast[..|fast|] == fast;
    StepKeeps(h, d, Event(first, |fast|));
    if p <= |fast| {
      assert (fast + slow)[..p] == fast[..p];
      StepKeeps(h, d, Event(first, p));
    } else {
      var q := p - |fast|;
      assert (fast + slow)[..p] == fast + slow[..q];
      PutAllMore(d, fast, slow[..q]);
      StepKeeps(h, middle, Event(second, q));
    }
  }

  /** Signing that overlaps a revocation: of the new entry and the mark one is lost, whatever the order
      of the replacements, because the later registry was made without the other's change. */
  lemma OverlapLosesOne(h: Numerals, d: Disk, op: Op, a: nat, now: int, sign: seq<Write>, revoke: seq<Write>, ws: seq<Write>)
    requires Sound(h) && Inv(h, d) && op.Sign? && op.serial !in d.issued
    requires Registered(h, d, a) && !Recorded(h, d, a)
    requires Plan(h, d, op) == Some(sign) && Plan(h, d, Revoke(h.write(a), now)) == Some(revoke)
    requires IsMerge(ws, sign, revoke)
    ensures !Recorded(h, PutAll(d, ws), a) || !Registered(h, PutAll(d, ws), op.serial)
  {
    var r, item := SignStep(h, d, op, 0);
    var marked, c := RevokeStep(h, d, a, now, 0);
    LastRegistry(d, ws, sign, revoke, r, marked);
    NotIssuedNotRegistered(h, d, op.serial);
    RevokedAppend(h, d.registry.value, item, a);
    forall i | 0 <= i < |marked| ensures marked[i].serial != h.write(op.serial) {
      assert d.registry.value[i].serial != h.write(op.serial);
    }
  }

  lemma LastRegistry(d: Disk, ws: seq<Write>, a: seq<Write>, b: seq<Write>, r: seq<Issuance>, r': seq<Issuance>)
    requires IsMerge(ws, a, b) && |a| == |b| == 2
    requires a[1] == ToRegistry(r) && b[1] == ToRegistry(r')
    ensures PutAll(d, ws).registry in {Some(r), Some(r')}
  {
    MergeOfTwos(ws, a, b);
    assert ws[3] == a[1] || ws[3] == b[1];
  }

  /** Exactly when signing beside a revocation loses nothing, the first to read being either: both
      the new entry and the mark are in the final registry if and only if the second to read read
      last of all. */
  lemma BothKeptExactly(h: Numerals, d: Disk, op: Op, a: nat, now: int, signFirst: bool, j: nat,
                        first: seq<Write>, second: seq<Write>, ws: seq<Write>)
    requires Sound(h) && Inv(h, d) && j <= 2 && op.Sign? && op.serial !in d.issued
    requires Registered(h, d, a) && !Recorded(h, d, a)
    requires Plan(h, d, if signFirst then op else Revoke(h.write(a), now)) == Some(first) && |first| == 2
    requires Plan(h, PutAll(d, first[..j]), if signFirst then Revoke(h.write(a), now) else op) == Some(second)
    requires IsMerge(ws, first[j..], second)
    ensures var end := PutAll(d, first[..j] + ws);
            Recorded(h, end, a) && Registered(h, end, op.serial) <==> j == 2
  {
    var revoke := Revoke(h.write(a), now);
    if j < 2 {
      PutSome(d, first, j);
      PlanUnmoved(h, d, first[0], if signFirst then revoke else op);
      MergeBehind(first[..j], ws, first, second);
      if signFirst {
        OverlapLosesOne(h, d, op, a, now, first, second, first[..j] + ws);
      } else {
        MergeSwaps(first[..j] + ws, first, second);
        OverlapLosesOne(h, d, op, a, now, second, first, first[..j] + ws);
      }
    } else {
      MergeWithNone(ws, second);
      assert first[..2] == first && first + second == first[..j] + ws;
      PutAllMore(d, first, second);
      if signFirst { SignThenRevoke(h, d, op, a, now, first, second); } else { RevokeThenSign(h, d, op, a, now, first, second); }
    }
  }

  lemma SignThenRevoke(h: Numerals, d: Disk, op: Op, a: nat, now: int, first: seq<Write>, second: seq<Write>)
    requires Sound(h) && Inv(h, d) && op.Sign? && Registered(h, d, a)
    requires Plan(h, d, op) == Some(first) && |first| == 2
    requires Plan(h, PutAll(d, first), Revoke(h.write(a), now)) == Some(second)
    ensures var end := PutAll(PutAll(d, first), second);
            Recorded(h, end, a) && Registered(h, end, op.serial)
  {
    var r, item := SignStep(h, d, op, 2);
    SignKeeps(h, d, op, 2);
    assert first[..2] == first;
    var middle := PutAll(d, first);
    assert middle == Step(h, d, Event(op, 2));
    HasSerialAppend(d.registry.value, item, h.write(a));
    HasSerialAppend(d.registry.value, item, h.write(op.serial));
    var marked, c := RevokeStep(h, middle, a, now, 2);
    assert second[..2] == second;
    RevokeInExact(h, middle.registry.value, a, now, a);
    assert marked[|d.registry.value|].serial == h.write(op.serial);
  }

  lemma RevokeThenSign(h: Numerals, d: Disk, op: Op, a: nat, now: int, first: seq<Write>, second: seq<Write>)
    requires Sound(h) && Inv(h, d) && op.Sign? && Registered(h, d, a)
    requires Plan(h, d, Revoke(h.write(a), now)) == Some(first) && |first| == 2
    requires Plan(h, PutAll(d, first), op) == Some(second)
    ensures var end := PutAll(PutAll(d, first), second);
            Recorded(h, end, a) && Registered(h, end, op.serial)
  {
    var marked, c := RevokeStep(h, d, a, now, 2);
    assert first[..2] == first;
    RevokeInExact(h, d.registry.value, a, now, a);
    var middle := PutAll(d, first);
    assert middle == Step(h, d, Event(Revoke(h.write(a), now), 2));
    var r, item := SignStep(h, middle, op, 2);
    assert second[..2] == second;
    RevokedAppend(h, marked, item, a);
    HasSerialAppend(marked, item, h.write(op.serial));
  }

  /** The worse half of it: signing that read the registry before a revocation completed and writes it
      afterwards takes the mark out again, so the next CRL no longer lists the revoked serial. */
  lemma RevocationDropped(h: Numerals, d: Disk, op: Op, a: nat, now: int, sign: seq<Write>)
    requires Sound(h) && Inv(h, d) && op.Sign? && Plan(h, d, op) == Some(sign)
    requires Registered(h, d, a) && !Recorded(h, d, a)
    ensures var e := Event(Revoke(h.write(a), now), 2);
            var end := PutAll(Step(h, d, e), sign);
            && Completed(h, d, e) && Recorded(h, Step(h, d, e), a)
            && Inv(h, end) && !Recorded(h, end, a) && !InCrl(Step(h, end, Event(Refresh, 1)), a)
  {
    var e := Event(Revoke(h.write(a), now), 2);
    var marked, c := RevokeStep(h, d, a, now, 2);
    RevokeInExact(h, d.registry.value, a, now, a);
    var r, item := SignStep(h, d, op, 2);
    PutSome(Step(h, d, e), sign, 2);
    assert sign[..2] == sign;
    var end := PutAll(Step(h, d, e), sign);
    assert end == d.(crl := Some(c), outputs := d.outputs + {op.out.path}, issued := d.issued + {op.serial}, registry := Some(r));
    RevokedAppend(h, d.registry.value, item, a);
    StaleRegistryKeeps(h, d, op.out.path, op.serial, a, now, marked, c, item, end);
    RefreshListsExactly(h, end, a);
  }

  lemma StaleRegistryKeeps(h: Numerals, d: Disk, path: string, n: nat, a: nat, now: int, marked: seq<Issuance>, c: Crl,
                           item: Issuance, end: Disk)
    requires Sound(h) && Inv(h, d) && d.registry.Some? && d.key == Some(c.signer)
    requires marked == RevokeIn(d.registry.value, h.write(a), now) && Entries(h, marked) == Some(c.entries)
    requires item.serial == h.write(n) && item.revokedAt.None?
    requires end == d.(crl := Some(c), outputs := d.outputs + {path}, issued := d.issued + {n},
                       registry := Some(d.registry.value + [item]))
    ensures Inv(h, end)
  {
    PrintedMore(h, d.registry.value, d.issued, n, item);
    forall m | Recorded(h, end, m) ensures InCrl(end, m) {
      RevokedAppend(h, d.registry.value, item, m);
      RevokeInExact(h, d.registry.value, a, now, m);
      EntriesExact(h, marked, m);
    }
  }

  lemma LostMark(h: Numerals, d: Disk, a: nat, b: nat, now: int, marked: seq<Issuance>, other: seq<Issuance>, c: Crl)
    requires Sound(h)
    requires a != b && Registered(h, d, a) && !Recorded(h, d, a)
    requires marked == RevokeIn(d.registry.value, h.write(a), now) && other == RevokeIn(d.registry.value, h.write(b), now)
    requires Entries(h, other) == Some(c.entries)
    ensures !Safe(h, d.(crl := Some(c), registry := Some(marked)))
  {
    RevokeInExact(h, d.registry.value, a, now, a);
    RevokeInExact(h, d.registry.value, b, now, a);
    EntriesExact(h, other, a);
    var end := d.(crl := Some(c), registry := Some(marked));
    assert Recorded(h, end, a) && !InCrl(end, a);
  }

  // ---- the operations themselves ----

  /** A directory on a file system that performs so many more replacements before it fails. */
  class Directory {
    const h: Numerals
    var disk: Disk
    var fuel: nat

    constructor (h: Numerals, d: Disk, n: nat)
      ensures this.h == h && disk == d && fuel == n
    {
      this.h, disk, fuel := h, d, n;
    }

    /** writePrivate: the file is replaced as a whole or not at all. */
    method WritePrivate(w: Write) returns (ok: bool)
      modifies this
      ensures ok <==> old(fuel) > 0
      ensures disk == if ok then Put(old(disk), w) else old(disk)
      ensures fuel == if ok then old(fuel) - 1 else 0
    {
      ok := fuel > 0;
      if ok {
        disk := Put(disk, w);
        fuel := fuel - 1;
      }
    }

    method UpdateCrl(registry: seq<Issuance>) returns (ok: bool)
      modifies this
      ensures ok <==> CrlWrite(h, old(disk), registry).Some? && old(fuel) > 0
      ensures disk == if ok then Put(old(disk), CrlWrite(h, old(disk), registry).value) else old(disk)
      ensures ok ==> fuel == old(fuel) - 1
    {
      if disk.crt.None? || disk.key.None? { return false; }
      var entries: seq<Entry> := [];
      for i := 0 to |registry|
        invariant disk == old(disk) && fuel == old(fuel)
        invariant Entries(h, registry[..i]) == Some(entries)
      {
        assert registry[..i + 1][..i] == registry[..i];
        var item := registry[i];
        if item.revokedAt.Some? {
          var serial := h.read(item.serial);
          if serial.None? {
            BadSerial(h, registry, i + 1);
            return false;
          }
          entries := entries + [Entry(serial.value, item.revokedAt.value)];
        }
      }
      assert registry[..|registry|] == registry;
      ok := WritePrivate(ToCrl(Crl(disk.key.value, entries)));
    }

    method InitCa(key: nat) returns (ok: bool)
      modifies this
      ensures disk == Step(h, old(disk), Event(Init(key), old(fuel)))
      ensures ok <==> Completed(h, old(disk), Event(Init(key), old(fuel)))
    {
      if disk.key.Some? { return false; }
      ghost var plan := Plan(h, disk, Init(key)).value;
      ghost var d := disk;
      PutSome(d, plan, Min(fuel, 4));
      ok := WritePrivate(ToKey(key));
      if !ok { return; }
      ok := WritePrivate(ToCrt(key));
      if !ok { return; }
      ok := WritePrivate(ToRegistry([]));
      if !ok { return; }
      ok := UpdateCrl([]);
    }

    method SignCsr(op: Op) returns (ok: bool)
      requires op.Sign?
      modifies this
      ensures disk == Step(h, old(disk), Event(op, old(fuel)))
      ensures ok <==> Completed(h, old(disk), Event(op, old(fuel)))
    {
      if !op.valid || op.out.CaFile? { return false; }
      if op.out.path in disk.outputs { return false; }
      if disk.crt.None? || disk.key.None? { return false; }
      if disk.registry.None? { return false; }
      PutSome(disk, Plan(h, disk, op).value, Min(fuel, 2));
      var registry := disk.registry.value + [Issuance(h.write(op.serial), op.cloudId, op.factoryId, op.expiresAt, None)];
      ok := WritePrivate(ToOutput(op.out.path, op.serial));
      if !ok { return; }
      ok := WritePrivate(ToRegistry(registry));
    }

    method RevokeSerial(serial: string, now: int) returns (ok: bool)
      modifies this
      ensures disk == Step(h, old(disk), Event(Revoke(serial, now), old(fuel)))
      ensures ok <==> Completed(h, old(disk), Event(Revoke(serial, now), old(fuel)))
    {
      if serial == "" || !h.digits(serial) { return false; }
      if disk.registry.None? { return false; }
      var registry := disk.registry.value;
      ghost var r := registry;
      var found := false;
      for i := 0 to |registry|
        invariant |registry| == |r| && disk == old(disk) && fuel == old(fuel)
        invariant found <==> HasSerial(r[..i], serial)
        invariant forall j :: 0 <= j < i ==> registry[j] == RevokeItem(r[j], serial, now)
        invariant forall j :: i <= j < |r| ==> registry[j] == r[j]
      {
        assert r[..i + 1] == r[..i] + [r[i]];
        assert HasSerial(r[..i + 1], serial) <==> HasSerial(r[..i], serial) || r[i].serial == serial by {
          HasSerialAppend(r[..i], r[i], serial);
        }
        if registry[i].serial == serial {
          found := true;
          if registry[i].revokedAt.None? {
            registry := registry[i := registry[i].(revokedAt := Some(now))];
          }
        }
      }
      assert r[..|r|] == r;
      if !found { return false; }
      assert registry == RevokeIn(r, serial, now);
      ghost var plan := Plan(h, disk, Revoke(serial, now));
      if plan.Some? { PutSome(disk, plan.value, Min(fuel, 2)); }
      ok := UpdateCrl(registry);
      if !ok { return; }
      ok := WritePrivate(ToRegistry(registry));
    }

    method RefreshCrl() returns (ok: bool)
      modifies this
      ensures disk == Step(h, old(disk), Event(Refresh, old(fuel)))
      ensures ok <==> Completed(h, old(disk), Event(Refresh, old(fuel)))
    {
      if disk.registry.None? { return false; }
      ghost var plan := Plan(h, disk, Refresh);
      if plan.Some? { PutSome(disk, plan.value, Min(fuel, 1)); }
      ok := UpdateCrl(disk.registry.value);
    }
  }

  lemma HasSerialAppend(r: seq<Issuance>, item: Issuance, serial: string)
    ensures HasSerial(r + [item], serial) <==> HasSerial(r, serial) || item.serial == serial
  {
    if HasSerial(r, serial) {
      var i :| 0 <= i < |r| && r[i].serial == serial;
      assert (r + [item])[i] == r[i];
    }
    if item.serial == serial { assert (r + [item])[|r|] == item; }
    if HasSerial(r + [item], serial) {
      var i :| 0 <= i < |r| + 1 && (r + [item])[i].serial == serial;
      assert i < |r| ==> r[i].serial == serial;
    }
  }

  lemma {:induction false} BadSerial(h: Numerals, r: seq<Issuance>, n: nat)
    requires n <= |r| && Entries(h, r[..n]).None?
    ensures Entries(h, r).None?
    decreases |r|
  {
    if n < |r| {
      assert r[..|r| - 1][..n] == r[..n];
      BadSerial(h, r[..|r| - 1], n);
    } else {
      assert r[..n] == r;
    }
  }
}
