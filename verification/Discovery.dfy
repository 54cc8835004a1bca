/** The cold-start sweep over /proc: which processes the daemon indexes, and as what. */
module Discovery {
  import opened Prelude
  import opened Text
  import opened Engine
  import Utf8

  // A numeric /proc entry: its owner and its command line, empty when unreadable.
  datatype ProcEntry = ProcEntry(pid: Pid, uid: nat, cmdline: seq<byte>)

  function UpToNul(b: seq<byte>): seq<byte> {
    match Position(b, 0)
    case Some(i) => b[..i]
    case None => b
  }

  // A process that looks like an app: a dotted name that is neither a path nor an option.
  function Discovered(e: ProcEntry): (r: Option<Seeded>)
    ensures r.Some? ==> r.value.pid == e.pid && r.value.uid == e.uid && (r.value.pkg == "" || r.value.pkg[0] != '-')
  {
    match Utf8.Decode(UpToNul(e.cmdline))
    case None => None
    case Some(text) =>
      var name := Trim(text);
      if e.cmdline == [] || '.' !in name || name[0] == '/' || name[0] == '-' then None
      else
        var pkg := Trim(Before(name, ':'));
        if pkg != "" && pkg[0] == '-' then None else Some(Seeded(e.pid, pkg, e.uid))
  }

  function AllDiscovered(entries: seq<ProcEntry>): seq<Seeded> {
    if entries == [] then []
    else
      var d := Discovered(entries[|entries| - 1]);
      AllDiscovered(entries[..|entries| - 1]) + (if d.Some? then [d.value] else [])
  }

  lemma {:induction false} DiscoveredFrom(entries: seq<ProcEntry>)
    ensures forall d | d in AllDiscovered(entries) :: exists e :: e in entries && Discovered(e) == Some(d)
    ensures forall e | e in entries && Discovered(e).Some? :: Discovered(e).value in AllDiscovered(entries)
  {
    hide Discovered;
    if entries != [] {
      var n := |entries| - 1;
      DiscoveredFrom(entries[..n]);
      assert entries == entries[..n] + [entries[n]];
      forall d | d in AllDiscovered(entries) ensures exists e :: e in entries && Discovered(e) == Some(d) {
        if d in AllDiscovered(entries[..n]) {
          var e :| e in entries[..n] && Discovered(e) == Some(d);
          assert e in entries;
        } else {
          assert entries[n] in entries && Discovered(entries[n]) == Some(d);
        }
      }
    }
  }

  lemma SeedLast(x: Index, front: seq<Seeded>, e: Seeded)
    ensures Seed(x, front + [e]) == SeedOne(Seed(x, front), e)
  {
    assert (front + [e])[..|front|] == front;
  }

  lemma KeepsPid(e: ProcEntry)
    ensures Discovered(e).Some? ==> Discovered(e).value.pid == e.pid
  {
  }

  function PidsIn(ds: seq<Seeded>): seq<Pid> { seq(|ds|, n requires 0 <= n < |ds| => ds[n].pid) }

  lemma NoDupLast(q: seq<Pid>, x: Pid)
    requires NoDup(q) && forall n | 0 <= n < |q| :: q[n] != x
    ensures NoDup(q + [x])
  {
  }

  // A directory lists every PID once, so the sweep indexes every PID at most once.
  lemma {:induction false} DiscoveredOnce(entries: seq<ProcEntry>)
    requires forall m, n | 0 <= m < n < |entries| :: entries[m].pid != entries[n].pid
    ensures NoDup(PidsIn(AllDiscovered(entries)))
  {
    hide Discovered;
    if entries != [] {
      var n := |entries| - 1;
      var front, d := AllDiscovered(entries[..n]), Discovered(entries[n]);
      DiscoveredOnce(entries[..n]);
      DiscoveredFrom(entries[..n]);
      KeepsPid(entries[n]);
      forall m | 0 <= m < |front| ensures front[m].pid != entries[n].pid {
        assert front[m] in front;
        var e :| e in entries[..n] && Discovered(e) == Some(front[m]);
        KeepsPid(e);
        var j :| 0 <= j < n && entries[j] == e;
      }
      assert front + [] == front;
      if d.Some? {
        assert PidsIn(front + [d.value]) == PidsIn(front) + [d.value.pid];
        NoDupLast(PidsIn(front), d.value.pid);
      }
    }
  }

  // --- what is swept ----------------------------------------------------------------------------

  // A command line whose first argument is the text.
  predicate Commands(cmdline: seq<byte>, text: string, rest: Option<seq<byte>>) {
    && 0 !in Utf8.Encode(text)
    && cmdline == Utf8.Encode(text) + match rest case None => [] case Some(args) => [0] + args
  }

  lemma FirstArgument(cmdline: seq<byte>, text: string, rest: Option<seq<byte>>)
    requires Commands(cmdline, text, rest)
    ensures UpToNul(cmdline) == Utf8.Encode(text) && Utf8.Decode(UpToNul(cmdline)) == Some(text)
  {
    var t := Utf8.Encode(text);
    Utf8.EncodedDecodes(text);
    match rest
    case None => assert cmdline == t;
    case Some(args) =>
      assert cmdline == t + [0] + args;
      PositionAt(t, 0, args);
  }

  function Named(app: string, part: Option<string>): string {
    match part
    case None => app
    case Some(p) => app + [':'] + p
  }

  lemma AppOf(app: string, part: Option<string>)
    requires Bare(app, IsSpace) && ':' !in app
    ensures Trim(Before(Named(app, part), ':')) == app
    ensures app != "" ==> Named(app, part)[0] == app[0]
  {
    hide StripLeft, StripRight, IsSpace;
    if part.Some? { FirstAt(app, ':', part.value); }
    BareStays(app, IsSpace);
  }

  // A process is indexed exactly when the first argument, trimmed, is a dotted name and neither
  // a path nor an option; then under its own PID and owner, as what stands before a colon.
  lemma SweptIff(e: ProcEntry, gap: string, app: string, part: Option<string>, behind: string, rest: Option<seq<byte>>)
    requires var name := Named(app, part);
      && AllSpace(gap) && AllSpace(behind) && Bare(name, IsSpace) && Bare(app, IsSpace) && ':' !in app
      && Commands(e.cmdline, gap + (name + behind), rest)
    ensures var name := Named(app, part);
      Discovered(e) == if '.' in name && name[0] != '/' && name[0] != '-' then Some(Seeded(e.pid, app, e.uid)) else None
  {
    hide Utf8.Encode, Utf8.Decode, Trim, Before, AllSpace, Bare, UpToNul, Named, Commands;
    var name := Named(app, part);
    FirstArgument(e.cmdline, gap + (name + behind), rest);
    PadsTrim(gap, name, behind);
    AppOf(app, part);
    Silent(e.cmdline, gap + (name + behind), rest);
  }

  lemma Silent(cmdline: seq<byte>, text: string, rest: Option<seq<byte>>)
    requires Commands(cmdline, text, rest)
    ensures cmdline == [] ==> text == ""
  {
    if cmdline == [] && text != "" { Utf8.Ends(text); }
  }

  // Only a process whose first argument is UTF-8 is indexed.
  lemma SweptIsText(e: ProcEntry)
    requires Discovered(e).Some?
    ensures exists text, rest :: Commands(e.cmdline, text, rest)
  {
    hide Utf8.Encode, Utf8.Decode;
    var b := UpToNul(e.cmdline);
    var text := Utf8.Decode(b).value;
    Utf8.DecodedEncodes(b);
    match Position(e.cmdline, 0)
    case Some(i) =>
      assert e.cmdline == b + ([0] + e.cmdline[i + 1..]);
      assert Commands(e.cmdline, text, Some(e.cmdline[i + 1..]));
    case None =>
      assert e.cmdline == b + [];
      assert Commands(e.cmdline, text, None);
  }

  // --- what the tables hold afterwards ------------------------------------------------------------

  ghost predicate Reported(ds: seq<Seeded>, p: Pid, k: Pkg) { exists d :: d in ds && d.pid == p && d.pkg == k }

  // The owner in the last report about a package.
  ghost predicate LastOwner(ds: seq<Seeded>, k: Pkg, uid: nat) {
    exists n :: 0 <= n < |ds| && ds[n].pkg == k && ds[n].uid == uid && forall m | n < m < |ds| :: ds[m].pkg != k
  }

  // Both indexes hold exactly what was reported, the owner is the last one reported.
  lemma {:induction false} SweepIndexes(ds: seq<Seeded>)
    requires NoDup(PidsIn(ds))
    ensures var x := Seed(Index(map[], map[], map[]), ds);
      && (forall p, k :: p in x.pidToPkg && x.pidToPkg[p] == k <==> Reported(ds, p, k))
      && (forall p, k :: k in x.pkgToPids && p in x.pkgToPids[k] <==> Reported(ds, p, k))
      && (forall k, uid :: k in x.pkgToUid && x.pkgToUid[k] == uid <==> LastOwner(ds, k, uid))
  {
    hide Reported, LastOwner;
    var x := Seed(Index(map[], map[], map[]), ds);
    if ds == [] {
      NothingReported();
    } else {
      var n := |ds| - 1;
      assert PidsIn(ds)[..n] == PidsIn(ds[..n]);
      SweepIndexes(ds[..n]);
      forall p, k ensures Reported(ds, p, k) <==> Reported(ds[..n], p, k) || (ds[n].pid == p && ds[n].pkg == k) {
        ReportedLast(ds, p, k);
      }
      forall p, k | Reported(ds[..n], p, k) ensures p != ds[n].pid { FreshPid(ds, p, k); }
      forall k, uid
        ensures LastOwner(ds, k, uid) <==> if ds[n].pkg == k then ds[n].uid == uid else LastOwner(ds[..n], k, uid)
      {
        LastOwnerLast(ds, k, uid);
      }
    }
  }

  lemma NothingReported()
    ensures forall p, k :: !Reported([], p, k)
    ensures forall k, uid :: !LastOwner([], k, uid)
  {
  }

  lemma ReportedLast(ds: seq<Seeded>, p: Pid, k: Pkg)
    requires ds != []
    ensures var n := |ds| - 1; Reported(ds, p, k) <==> Reported(ds[..n], p, k) || (ds[n].pid == p && ds[n].pkg == k)
  {
    var n := |ds| - 1;
    assert ds == ds[..n] + [ds[n]];
  }

  lemma FreshPid(ds: seq<Seeded>, p: Pid, k: Pkg)
    requires ds != [] && NoDup(PidsIn(ds)) && Reported(ds[..|ds| - 1], p, k)
    ensures p != ds[|ds| - 1].pid
  {
    var n := |ds| - 1;
    var d :| d in ds[..n] && d.pid == p;
    var m :| 0 <= m < n && ds[m] == d;
    assert PidsIn(ds)[m] == p && PidsIn(ds)[n] == ds[n].pid;
  }

  lemma LastOwnerLast(ds: seq<Seeded>, k: Pkg, uid: nat)
    requires ds != []
    ensures var n := |ds| - 1;
      LastOwner(ds, k, uid) <==> if ds[n].pkg == k then ds[n].uid == uid else LastOwner(ds[..n], k, uid)
  {
    var n := |ds| - 1;
    if ds[n].pkg == k {
      assert ds[n].uid == uid ==> LastOwner(ds, k, uid);
    } else {
      if LastOwner(ds, k, uid) {
        var m :| 0 <= m < |ds| && ds[m].pkg == k && ds[m].uid == uid && forall j | m < j < |ds| :: ds[j].pkg != k;
        assert ds[..n][m] == ds[m] && forall j | m < j < n :: ds[..n][j] == ds[j];
      }
      if LastOwner(ds[..n], k, uid) {
        var m :| 0 <= m < n && ds[..n][m].pkg == k && ds[..n][m].uid == uid
                 && forall j | m < j < n :: ds[..n][j].pkg != k;
        assert ds[m] == ds[..n][m] && forall j | m < j < n :: ds[j] == ds[..n][j];
      }
    }
  }
}
