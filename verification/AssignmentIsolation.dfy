/** Accepted assignments are isolated: distinct sockets, and durable roots none of which
    lies inside another. */
module AssignmentIsolation {
  import opened Prelude
  import opened Hex
  import opened Assignments

  // Roots. -------------------------------------------------------------------------------------

  lemma {:induction false} TrimStartDots(space: char -> bool, s: string)
    requires HasDots(TrimStart(space, s))
    ensures HasDots(s)
  {
    if s != "" && space(s[0]) {
      TrimStartDots(space, s[1..]);
      var k :| 1 <= k < |s[1..]| && s[1..][k - 1] == '.' && s[1..][k] == '.';
      assert s[k] == '.' && s[k + 1] == '.';
    }
  }

  lemma {:induction false} TrimEndDots(space: char -> bool, s: string)
    requires HasDots(TrimEnd(space, s))
    ensures HasDots(s)
  {
    if s != "" && space(s[|s| - 1]) {
      TrimEndDots(space, s[..|s| - 1]);
      var k :| 1 <= k < |s| - 1 && s[..|s| - 1][k - 1] == '.' && s[..|s| - 1][k] == '.';
      assert s[k - 1] == '.' && s[k] == '.';
    }
  }

  lemma {:induction false} DeploymentDots(syntax: Syntax, prefix: string)
    requires !HasDots(prefix)
    ensures !HasDots(Deployment(syntax, prefix))
  {
    hide HasDots;
    var started := TrimStart(syntax.space, prefix);
    var trimmed := TrimEnd(syntax.space, started);
    if HasDots(Deployment(syntax, prefix)) {
      TrimEndDots(ch => ch == '/', trimmed);
      TrimEndDots(syntax.space, started);
      TrimStartDots(syntax.space, prefix);
    }
  }

  // What follows the deployment prefix in a root.
  function Below(canon: Bytes, verse: Bytes): string {
    "/cv/" + (HexText(canon) + ("/" + HexText(verse)))
  }

  lemma {:induction false} BelowShape(canon: Bytes, verse: Bytes)
    ensures |Below(canon, verse)| == 5 + 2 * |canon| + 2 * |verse| && Below(canon, verse)[0] == '/'
    ensures forall i :: 0 <= i < |Below(canon, verse)| ==> Below(canon, verse)[i] != '.'
  {
    HexTextShape(canon);
    HexTextShape(verse);
    var tail := "/" + HexText(verse);
    var hex := HexText(canon) + tail;
    assert forall i :: 0 <= i < |tail| ==> tail[i] != '.';
    assert forall i :: 0 <= i < |hex| ==> hex[i] != '.';
    assert forall i :: 0 <= i < 4 ==> "/cv/"[i] != '.';
  }

  lemma {:induction false} NoDotsAfter(p: string, below: string)
    requires !HasDots(p) && forall i :: 0 <= i < |below| ==> below[i] != '.'
    ensures !HasDots(p + below)
  {
    var s := p + below;
    forall k | 1 <= k < |s| ensures !(s[k - 1] == '.' && s[k] == '.') {
      if k < |p| { assert s[k - 1] == p[k - 1] && s[k] == p[k]; } else { assert s[k] == below[k - |p|]; }
    }
  }

  /** A derived root has no `..` and stays under the deployment prefix. */
  lemma {:induction false} RootStaysInside(syntax: Syntax, prefix: string, canon: Bytes, verse: Bytes)
    requires !HasDots(prefix)
    ensures !HasDots(Root(syntax, prefix, canon, verse))
    ensures !Escapes(Deployment(syntax, prefix), Root(syntax, prefix, canon, verse))
  {
    DeploymentDots(syntax, prefix);
    BelowShape(canon, verse);
    var deployment, below := Deployment(syntax, prefix), Below(canon, verse);
    NoDotsAfter(deployment, below);
    hide Deployment, Below, HasDots;
    assert (deployment + below)[..|deployment|] == deployment;
    assert (deployment + below)[|deployment|..] == below;
    assert below[..1] == "/";
  }

  /** Roots of different Canon/Verse pairs are different, and as long as one another, so
      none is a prefix of another. */
  lemma {:induction false} RootsApart(syntax: Syntax, prefix: string, c: Bytes, v: Bytes, d: Bytes, w: Bytes)
    requires |c| == |d| && |v| == |w| && (c != d || v != w)
    ensures !(Root(syntax, prefix, c, v) <= Root(syntax, prefix, d, w))
  {
    var p := Deployment(syntax, prefix);
    hide Deployment;
    var a, b := Root(syntax, prefix, c, v), Root(syntax, prefix, d, w);
    HexTextShape(c); HexTextShape(d); HexTextShape(v); HexTextShape(w);
    var m := |p| + 4;
    var n := m + 2 * |c|;
    assert a[m..n] == HexText(c) && b[m..n] == HexText(d);
    assert a[n + 1..] == HexText(v) && b[n + 1..] == HexText(w);
    if a <= b {
      assert a == b;
      HexTextInjective(c, d);
      HexTextInjective(v, w);
    }
  }

  // The last checks never fire. -------------------------------------------------------------------

  ghost predicate FixedIds(a: Assignment) {
    |a.canon| == 16 && |a.verse| == 16 && |a.cohort| == 16 && |a.writer| == 16
  }

  // What `FaultAt` checks before it looks at the root.
  ghost predicate Fine(syntax: Syntax, cfg: Config, i: nat)
    requires i < |cfg.assignments|
  {
    var l, a := cfg.assignments, cfg.assignments[i];
    && !BadSegment(syntax, a.id) && !TakenId(l, i, a.id)
    && Trim(syntax.space, a.bind) != "" && !TakenSocket(l, i, a.bind)
    && (a.wireBind.Some? ==>
         Trim(syntax.space, a.wireBind.value) != "" && !TakenSocket(l, i, a.wireBind.value) &&
         a.wireBind.value != a.bind)
    && syntax.endpoint(a.advertise) && !TakenAdvertise(l, i, a.advertise)
    && FixedIds(a) && !TakenKey(l, i, a.canon, a.verse)
  }

  /** Once the prefix check and Canon/Verse uniqueness hold, the checks of the derived
      root pass. */
  lemma {:induction false} RootChecksPass(syntax: Syntax, cfg: Config, i: nat)
    requires !HasDots(cfg.prefix) && i < |cfg.assignments|
    requires forall j :: 0 <= j <= i ==> FixedIds(cfg.assignments[j])
    requires !TakenKey(cfg.assignments, i, cfg.assignments[i].canon, cfg.assignments[i].verse)
    ensures var a := cfg.assignments[i];
      var root := Root(syntax, cfg.prefix, a.canon, a.verse);
      RootFault(Deployment(syntax, cfg.prefix), root, TakenRoot(syntax, cfg, i, root)) == None
  {
    var l, a := cfg.assignments, cfg.assignments[i];
    RootStaysInside(syntax, cfg.prefix, a.canon, a.verse);
    hide Root, Deployment, HasDots, Escapes;
    forall j | 0 <= j < i ensures Root(syntax, cfg.prefix, l[j].canon, l[j].verse) !=
        Root(syntax, cfg.prefix, a.canon, a.verse) {
      assert FixedIds(l[j]) && FixedIds(l[i]);
      RootsApart(syntax, cfg.prefix, l[j].canon, l[j].verse, a.canon, a.verse);
    }
  }

  lemma {:induction false} FaultAtIs(syntax: Syntax, cfg: Config, i: nat)
    requires !HasDots(cfg.prefix) && i < |cfg.assignments|
    requires forall j :: 0 <= j < i ==> FixedIds(cfg.assignments[j])
    ensures FaultAt(syntax, cfg, i).None? <==> Fine(syntax, cfg, i)
    ensures FaultAt(syntax, cfg, i) !in {Some(RootHasDots), Some(RootEscapes), Some(DuplicateRoot)}
  {
    if FixedIds(cfg.assignments[i]) && !TakenKey(cfg.assignments, i, cfg.assignments[i].canon,
        cfg.assignments[i].verse) {
      RootChecksPass(syntax, cfg, i);
    }
    hide Root, Deployment, HasDots, RootFault, TakenId, TakenSocket, TakenAdvertise, TakenKey, TakenRoot, Trim,
        BadSegment;
  }

  lemma {:induction false} FaultFromIs(syntax: Syntax, cfg: Config, i: nat)
    requires !HasDots(cfg.prefix) && i <= |cfg.assignments|
    requires forall j :: 0 <= j < i ==> Fine(syntax, cfg, j)
    ensures FaultFrom(syntax, cfg, i).None? <==> forall j :: 0 <= j < |cfg.assignments| ==> Fine(syntax, cfg, j)
    ensures FaultFrom(syntax, cfg, i) !in {Some(RootHasDots), Some(RootEscapes), Some(DuplicateRoot)}
    decreases |cfg.assignments| - i
  {
    if i < |cfg.assignments| {
      forall j | 0 <= j < i ensures FixedIds(cfg.assignments[j]) { assert Fine(syntax, cfg, j); }
      FaultAtIs(syntax, cfg, i);
      hide FaultAt, Fine, FixedIds, HasDots;
      if Fine(syntax, cfg, i) { FaultFromIs(syntax, cfg, i + 1); }
    }
  }

  /** The checks for `..`, for escape from the prefix and for a repeated root are never
      what refuses a configuration. */
  lemma {:induction false} RootChecksNeverFire(syntax: Syntax, cfg: Config)
    ensures ConfigFault(syntax, cfg) !in {Some(RootHasDots), Some(RootEscapes), Some(DuplicateRoot)}
  {
    if GeneralFault(syntax, cfg).None? { FaultFromIs(syntax, cfg, 0); }
  }

  // What acceptance means. ----------------------------------------------------------------------------

  // Every listener socket of the first `n` assignments, raw and wire.
  function Sockets(l: seq<Assignment>, n: nat): seq<string>
    requires n <= |l|
  {
    if n == 0 then [] else
      Sockets(l, n - 1) + [l[n - 1].bind] + (if l[n - 1].wireBind.Some? then [l[n - 1].wireBind.value] else [])
  }

  lemma {:induction false} SocketsTaken(l: seq<Assignment>, n: nat, s: string)
    requires n <= |l|
    ensures s in Sockets(l, n) <==> TakenSocket(l, n, s)
  {
    if n > 0 { SocketsTaken(l, n - 1, s); }
  }

  lemma {:induction false} DistinctSnoc<T>(s: seq<T>, x: T)
    ensures Distinct(s + [x]) <==> Distinct(s) && x !in s
  {
    var t := s + [x];
    if Distinct(t) {
      forall i, j | 0 <= i < j < |s| ensures s[i] != s[j] { assert t[i] == s[i] && t[j] == s[j]; }
      forall i | 0 <= i < |s| ensures s[i] != x { assert t[i] == s[i] && t[|s|] == x; }
    }
  }

  ghost predicate SocketsFine(l: seq<Assignment>, i: nat)
    requires i < |l|
  {
    && !TakenSocket(l, i, l[i].bind)
    && (l[i].wireBind.Some? ==> !TakenSocket(l, i, l[i].wireBind.value) && l[i].wireBind.value != l[i].bind)
  }

  lemma {:induction false} SocketsDistinct(l: seq<Assignment>, n: nat)
    requires n <= |l|
    ensures Distinct(Sockets(l, n)) <==> forall i :: 0 <= i < n ==> SocketsFine(l, i)
  {
    if n > 0 {
      var a, front := l[n - 1], Sockets(l, n - 1);
      SocketsDistinct(l, n - 1);
      SocketsTaken(l, n - 1, a.bind);
      DistinctSnoc(front, a.bind);
      hide Distinct, TakenSocket;
      if a.wireBind.Some? {
        SocketsTaken(l, n - 1, a.wireBind.value);
        DistinctSnoc(front + [a.bind], a.wireBind.value);
      } else {
        assert Sockets(l, n) == front + [a.bind];
      }
      if forall i :: 0 <= i < n - 1 ==> SocketsFine(l, i) {
        assert SocketsFine(l, n - 1) ==> forall i :: 0 <= i < n ==> SocketsFine(l, i);
      }
    }
  }

  predicate Blank(space: char -> bool, s: string) {
    forall i :: 0 <= i < |s| ==> space(s[i])
  }

  lemma {:induction false} TrimEndBlank(space: char -> bool, s: string)
    ensures TrimEnd(space, s) == "" <==> Blank(space, s)
  {
    if s != "" && space(s[|s| - 1]) {
      TrimEndBlank(space, s[..|s| - 1]);
      assert Blank(space, s) <==> Blank(space, s[..|s| - 1]);
    }
  }

  lemma {:induction false} TrimStartBlank(space: char -> bool, s: string)
    ensures Blank(space, TrimStart(space, s)) <==> Blank(space, s)
  {
    if s != "" && space(s[0]) {
      TrimStartBlank(space, s[1..]);
      assert Blank(space, s[1..]) ==> forall i :: 1 <= i < |s| ==> s[i] == s[1..][i - 1];
    }
  }

  // Trimming leaves nothing exactly of white space.
  lemma {:induction false} TrimBlank(space: char -> bool, s: string)
    ensures Trim(space, s) == "" <==> Blank(space, s)
  {
    TrimStartBlank(space, s);
    TrimEndBlank(space, TrimStart(space, s));
  }

  // Each assignment on its own, with what no two may share.
  ghost predicate WellFormed(syntax: Syntax, a: Assignment) {
    && !Blank(syntax.space, a.id) && '/' !in a.id && !HasDots(a.id) && !Blank(syntax.space, a.bind)
    && (a.wireBind.Some? ==> !Blank(syntax.space, a.wireBind.value))
    && syntax.endpoint(a.advertise) && |a.canon| == |a.verse| == |a.cohort| == |a.writer| == 16
  }

  ghost predicate Unshared(a: Assignment, b: Assignment) {
    a.id != b.id && a.advertise != b.advertise && (a.canon != b.canon || a.verse != b.verse)
  }

  ghost predicate Isolated(syntax: Syntax, cfg: Config) {
    var l := cfg.assignments;
    && (forall i :: 0 <= i < |l| ==> WellFormed(syntax, l[i]))
    && (forall i, j :: 0 <= i < j < |l| ==> Unshared(l[i], l[j]))
    && Distinct(Sockets(l, |l|))
  }

  lemma {:induction false} FineIs(syntax: Syntax, cfg: Config, i: nat)
    requires i < |cfg.assignments|
    ensures var l := cfg.assignments;
      Fine(syntax, cfg, i) <==>
          WellFormed(syntax, l[i]) && SocketsFine(l, i) && forall j :: 0 <= j < i ==> Unshared(l[j], l[i])
  {
    hide Trim, TakenSocket, Blank, HasDots;
    var l, a := cfg.assignments, cfg.assignments[i];
    TrimBlank(syntax.space, a.id);
    TrimBlank(syntax.space, a.bind);
    if a.wireBind.Some? { TrimBlank(syntax.space, a.wireBind.value); }
    if forall j :: 0 <= j < i ==> Unshared(l[j], a) {
      assert !TakenId(l, i, a.id) && !TakenAdvertise(l, i, a.advertise) && !TakenKey(l, i, a.canon, a.verse);
    }
  }

  /** The general settings are in order: a prefix that names something and climbs nowhere, no
      listener, Verse or spool beside the assignments, some assignments but no more than
      allowed, no limit of zero, and serving authority. */
  ghost predicate Configured(syntax: Syntax, cfg: Config) {
    && !Blank(syntax.space, cfg.prefix) && !HasDots(cfg.prefix)
    && !cfg.topLevelListenerOrVerse && !cfg.spoolDir && cfg.servingAuthority
    && 1 <= |cfg.assignments| <= cfg.limits.maxAssignments
    && cfg.limits.maxPendingBytes >= 1 && cfg.limits.maxPendingRecords >= 1 && cfg.limits.maxConcurrentTasks >= 1
  }

  lemma {:induction false} ConfiguredExactly(syntax: Syntax, cfg: Config)
    ensures GeneralFault(syntax, cfg).None? <==> Configured(syntax, cfg)
  {
    hide Trim, Blank, HasDots;
    TrimBlank(syntax.space, cfg.prefix);
  }

  /** A configuration is accepted exactly when its general settings are in order, each
      assignment is well formed, no two share an id, a route or a Canon/Verse, and all
      their sockets are pairwise distinct. */
  lemma {:induction false} AcceptedExactly(syntax: Syntax, cfg: Config)
    ensures ConfigFault(syntax, cfg).None? <==> Configured(syntax, cfg) && Isolated(syntax, cfg)
  {
    ConfiguredExactly(syntax, cfg);
    if GeneralFault(syntax, cfg).None? {
      FaultFromIs(syntax, cfg, 0);
      var l := cfg.assignments;
      SocketsDistinct(l, |l|);
      hide GeneralFault, FaultFrom, Fine, WellFormed, SocketsFine, Unshared, Sockets, Distinct;
      forall i | 0 <= i < |l|
        ensures Fine(syntax, cfg, i) <==>
          WellFormed(syntax, l[i]) && SocketsFine(l, i) && forall j :: 0 <= j < i ==> Unshared(l[j], l[i])
      {
        FineIs(syntax, cfg, i);
      }
    }
  }

  /** In an accepted configuration no durable root equals, or lies inside, another. */
  lemma {:induction false} AcceptedRootsApart(syntax: Syntax, cfg: Config, i: nat, j: nat)
    requires ConfigFault(syntax, cfg).None? && i < |cfg.assignments| && j < |cfg.assignments| && i != j
    ensures var a, b := cfg.assignments[i], cfg.assignments[j];
      !(Root(syntax, cfg.prefix, a.canon, a.verse) <= Root(syntax, cfg.prefix, b.canon, b.verse))
  {
    AcceptedExactly(syntax, cfg);
    var a, b := cfg.assignments[i], cfg.assignments[j];
    assert WellFormed(syntax, a) && WellFormed(syntax, b);
    assert if i < j then Unshared(a, b) else Unshared(b, a);
    hide Root, ConfigFault;
    RootsApart(syntax, cfg.prefix, a.canon, a.verse, b.canon, b.verse);
  }

  lemma {:induction false} TrimEndIs(space: char -> bool, s: string) returns (k: nat)
    ensures k <= |s| && TrimEnd(space, s) == s[..k] && Blank(space, s[k..])
    ensures k > 0 ==> !space(s[k - 1])
  {
    if s != "" && space(s[|s| - 1]) {
      var n := |s| - 1;
      k := TrimEndIs(space, s[..n]);
      assert s[..n][..k] == s[..k] && s[k..] == s[..n][k..] + [s[n]];
    } else {
      k := |s|;
      assert s[..k] == s;
    }
  }

  lemma {:induction false} TrimStartIs(space: char -> bool, s: string) returns (i: nat)
    ensures i <= |s| && TrimStart(space, s) == s[i..] && Blank(space, s[..i])
    ensures i < |s| ==> !space(s[i])
  {
    if s != "" && space(s[0]) {
      var j := TrimStartIs(space, s[1..]);
      i := j + 1;
      assert s[1..][j..] == s[i..] && s[..i] == [s[0]] + s[1..][..j];
    } else {
      i := 0;
      assert s[0..] == s;
    }
  }

  /** The prefix that roots are under: the configured one without the white space around it,
      and then without the slashes at its end. */
  lemma {:induction false} DeploymentIs(syntax: Syntax, prefix: string) returns (i: nat, j: nat, k: nat)
    ensures i <= j <= k <= |prefix| && Deployment(syntax, prefix) == prefix[i..j]
    ensures Blank(syntax.space, prefix[..i]) && Blank(syntax.space, prefix[k..])
    ensures i < k ==> !syntax.space(prefix[i]) && !syntax.space(prefix[k - 1])
    ensures (forall m :: j <= m < k ==> prefix[m] == '/') && (i < j ==> prefix[j - 1] != '/')
  {
    i := TrimStartIs(syntax.space, prefix);
    var rest := prefix[i..];
    var n := TrimEndIs(syntax.space, rest);
    k := i + n;
    assert rest[n..] == prefix[k..] && rest[..n] == prefix[i..k];
    var m := TrimEndIs(ch => ch == '/', prefix[i..k]);
    j := i + m;
    assert prefix[i..k][..m] == prefix[i..j] && prefix[i..k][m..] == prefix[j..k];
    assert n > 0 ==> prefix[k - 1] == rest[n - 1];
    assert forall q :: j <= q < k ==> prefix[q] == prefix[j..k][q - j];
  }

  // The root handed to the stores.
  function StoreRoot(syntax: Syntax, prefix: string, a: Assignment): Result<string, Fault> {
    if |a.canon| != 16 || |a.verse| != 16 then Err(BadFixedId) else
      var root := Root(syntax, prefix, a.canon, a.verse);
      match RootFault(Deployment(syntax, prefix), root, false)
      case Some(f) => Err(f)
      case None => Ok(root)
  }

  /** Asking an accepted configuration for a root never fails. */
  lemma {:induction false} StoreRootNeverFails(syntax: Syntax, cfg: Config, i: nat)
    requires ConfigFault(syntax, cfg).None? && i < |cfg.assignments|
    ensures var a := cfg.assignments[i];
      StoreRoot(syntax, cfg.prefix, a) == Ok(Root(syntax, cfg.prefix, a.canon, a.verse))
  {
    AcceptedExactly(syntax, cfg);
    var a := cfg.assignments[i];
    assert WellFormed(syntax, a);
    assert !HasDots(cfg.prefix);
    RootStaysInside(syntax, cfg.prefix, a.canon, a.verse);
  }
}
