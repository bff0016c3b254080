/** Multi-assignment configuration: what is accepted, and the durable roots derived. */
module Assignments {
  import opened Prelude
  import opened Hex

  datatype Assignment = Assignment(
    id: string, canon: Bytes, verse: Bytes, cohort: Bytes, writer: Bytes,
    bind: string, wireBind: Option<string>, advertise: string)

  datatype Limits = Limits(maxAssignments: nat, maxPendingBytes: nat, maxPendingRecords: nat, maxConcurrentTasks: nat)

  datatype Config = Config(
    prefix: string, topLevelListenerOrVerse: bool, spoolDir: bool, servingAuthority: bool,
    limits: Limits, assignments: seq<Assignment>)

  // The character classes and endpoint syntax the checks rely on.
  datatype Syntax = Syntax(space: char -> bool, endpoint: string -> bool)

  datatype Fault =
    | BadPrefix
    | TopLevelListenerOrVerse | SpoolDir | NoAssignments | TooManyAssignments | ZeroLimit | NotServingAuthority
    | BadId | DuplicateId | EmptyBind | DuplicateBind | EmptyWireBind | DuplicateWireBind
    | BadAdvertise | DuplicateAdvertise | BadFixedId | DuplicateCanonVerse
    | RootHasDots | RootEscapes | DuplicateRoot

  // Text. --------------------------------------------------------------------------------------

  function TrimStart(space: char -> bool, s: string): string {
    if s != "" && space(s[0]) then TrimStart(space, s[1..]) else s
  }

  function TrimEnd(space: char -> bool, s: string): string {
    if s != "" && space(s[|s| - 1]) then TrimEnd(space, s[..|s| - 1]) else s
  }

  function Trim(space: char -> bool, s: string): string {
    TrimEnd(space, TrimStart(space, s))
  }

  function TrimSlashes(s: string): string {
    TrimEnd(ch => ch == '/', s)
  }

  predicate HasDots(s: string) {
    exists k :: 1 <= k < |s| && s[k - 1] == '.' && s[k] == '.'
  }

  // The deployment prefix as roots use it.
  function Deployment(syntax: Syntax, prefix: string): string {
    TrimSlashes(Trim(syntax.space, prefix))
  }

  /** The durable root of a Canon and Verse under a deployment prefix. */
  function Root(syntax: Syntax, prefix: string, canon: Bytes, verse: Bytes): string {
    Deployment(syntax, prefix) + ("/cv/" + (HexText(canon) + ("/" + HexText(verse))))
  }

  method AssignmentDurableRoot(syntax: Syntax, prefix: string, canon: Bytes, verse: Bytes) returns (root: string)
    ensures root == Root(syntax, prefix, canon, verse)
  {
    var first := HexEncode(canon);
    var second := HexEncode(verse);
    root := Deployment(syntax, prefix) + ("/cv/" + (first + ("/" + second)));
  }

  // The last checks, on the derived root. ----------------------------------------------------------

  predicate Escapes(deployment: string, root: string) {
    || !IsPrefix(deployment, root)
    || (|root| > |deployment| && !IsPrefix("/", root[|deployment|..]))
  }

  function RootFault(deployment: string, root: string, taken: bool): Option<Fault> {
    if HasDots(root) then Some(RootHasDots)
    else if Escapes(deployment, root) then Some(RootEscapes)
    else if taken then Some(DuplicateRoot)
    else None
  }

  // Validation. ---------------------------------------------------------------------------------------

  predicate BadSegment(syntax: Syntax, id: string) {
    Trim(syntax.space, id) == "" || '/' in id || HasDots(id)
  }

  // Whether `s` is a socket of one of the first `n` assignments.
  predicate TakenSocket(l: seq<Assignment>, n: nat, s: string)
    requires n <= |l|
  {
    exists j :: 0 <= j < n && (l[j].bind == s || l[j].wireBind == Some(s))
  }

  predicate TakenId(l: seq<Assignment>, n: nat, s: string)
    requires n <= |l|
  {
    exists j :: 0 <= j < n && l[j].id == s
  }

  predicate TakenAdvertise(l: seq<Assignment>, n: nat, s: string)
    requires n <= |l|
  {
    exists j :: 0 <= j < n && l[j].advertise == s
  }

  predicate TakenKey(l: seq<Assignment>, n: nat, canon: Bytes, verse: Bytes)
    requires n <= |l|
  {
    exists j :: 0 <= j < n && l[j].canon == canon && l[j].verse == verse
  }

  predicate TakenRoot(syntax: Syntax, cfg: Config, n: nat, root: string)
    requires n <= |cfg.assignments|
  {
    exists j :: 0 <= j < n && Root(syntax, cfg.prefix, cfg.assignments[j].canon, cfg.assignments[j].verse) == root
  }

  // The first check the `i`-th assignment fails, given those before it.
  function FaultAt(syntax: Syntax, cfg: Config, i: nat): Option<Fault>
    requires i < |cfg.assignments|
  {
    var l := cfg.assignments;
    var a := l[i];
    if BadSegment(syntax, a.id) then Some(BadId)
    else if TakenId(l, i, a.id) then Some(DuplicateId)
    else if Trim(syntax.space, a.bind) == "" then Some(EmptyBind)
    else if TakenSocket(l, i, a.bind) then Some(DuplicateBind)
    else if a.wireBind.Some? && Trim(syntax.space, a.wireBind.value) == "" then Some(EmptyWireBind)
    else if a.wireBind.Some? && (TakenSocket(l, i, a.wireBind.value) || a.wireBind.value == a.bind)
        then Some(DuplicateWireBind)
    else if !syntax.endpoint(a.advertise) then Some(BadAdvertise)
    else if TakenAdvertise(l, i, a.advertise) then Some(DuplicateAdvertise)
    else if |a.canon| != 16 || |a.verse| != 16 || |a.cohort| != 16 || |a.writer| != 16 then Some(BadFixedId)
    else if TakenKey(l, i, a.canon, a.verse) then Some(DuplicateCanonVerse)
    else
      var root := Root(syntax, cfg.prefix, a.canon, a.verse);
      RootFault(Deployment(syntax, cfg.prefix), root, TakenRoot(syntax, cfg, i, root))
  }

  // The first fault among the assignments from `i` on.
  function FaultFrom(syntax: Syntax, cfg: Config, i: nat): Option<Fault>
    requires i <= |cfg.assignments|
    decreases |cfg.assignments| - i
  {
    if i == |cfg.assignments| then None
    else if FaultAt(syntax, cfg, i).Some? then FaultAt(syntax, cfg, i)
    else FaultFrom(syntax, cfg, i + 1)
  }

  function GeneralFault(syntax: Syntax, cfg: Config): Option<Fault> {
    if Trim(syntax.space, cfg.prefix) == "" || HasDots(cfg.prefix) then Some(BadPrefix)
    else if cfg.topLevelListenerOrVerse then Some(TopLevelListenerOrVerse)
    else if cfg.spoolDir then Some(SpoolDir)
    else if cfg.assignments == [] then Some(NoAssignments)
    else if |cfg.assignments| > cfg.limits.maxAssignments then Some(TooManyAssignments)
    else if cfg.limits.maxAssignments == 0 || cfg.limits.maxPendingBytes == 0 || cfg.limits.maxPendingRecords == 0 ||
        cfg.limits.maxConcurrentTasks == 0 then Some(ZeroLimit)
    else if !cfg.servingAuthority then Some(NotServingAuthority)
    else None
  }

  function ConfigFault(syntax: Syntax, cfg: Config): Option<Fault> {
    if GeneralFault(syntax, cfg).Some? then GeneralFault(syntax, cfg) else FaultFrom(syntax, cfg, 0)
  }

  // What the sets hold after `i` assignments.
  ghost predicate Collected(syntax: Syntax, cfg: Config, i: nat, ids: set<string>, binds: set<string>,
          advertises: set<string>, keys: set<(Bytes, Bytes)>, roots: set<string>)
    requires i <= |cfg.assignments|
  {
    var l := cfg.assignments;
    && (forall s :: s in ids <==> TakenId(l, i, s))
    && (forall s :: s in binds <==> TakenSocket(l, i, s))
    && (forall s :: s in advertises <==> TakenAdvertise(l, i, s))
    && (forall k :: k in keys <==> TakenKey(l, i, k.0, k.1))
    && (forall s :: s in roots <==> TakenRoot(syntax, cfg, i, s))
  }

  lemma {:induction false} TakenOne(syntax: Syntax, cfg: Config, i: nat, s: string, canon: Bytes, verse: Bytes)
    requires i < |cfg.assignments|
    ensures var l := cfg.assignments;
      && (TakenId(l, i + 1, s) <==> TakenId(l, i, s) || l[i].id == s)
      && (TakenSocket(l, i + 1, s) <==> TakenSocket(l, i, s) || l[i].bind == s || l[i].wireBind == Some(s))
      && (TakenAdvertise(l, i + 1, s) <==> TakenAdvertise(l, i, s) || l[i].advertise == s)
      && (TakenKey(l, i + 1, canon, verse) <==>
           TakenKey(l, i, canon, verse) || (l[i].canon == canon && l[i].verse == verse))
      && (TakenRoot(syntax, cfg, i + 1, s) <==>
           TakenRoot(syntax, cfg, i, s) || Root(syntax, cfg.prefix, l[i].canon, l[i].verse) == s)
  {
    hide Root;
  }

  lemma {:induction false} CollectedOne(syntax: Syntax, cfg: Config, i: nat, ids: set<string>, binds: set<string>,
          advertises: set<string>, keys: set<(Bytes, Bytes)>, roots: set<string>)
    requires i < |cfg.assignments| && Collected(syntax, cfg, i, ids, binds, advertises, keys, roots)
    ensures var a := cfg.assignments[i];
      Collected(syntax, cfg, i + 1, ids + {a.id},
                binds + {a.bind} + (if a.wireBind.Some? then {a.wireBind.value} else {}),
                advertises + {a.advertise}, keys + {(a.canon, a.verse)},
                roots + {Root(syntax, cfg.prefix, a.canon, a.verse)})
  {
    hide Root, TakenId, TakenSocket, TakenAdvertise, TakenKey, TakenRoot;
    var l, a := cfg.assignments, cfg.assignments[i];
    var sockets := {a.bind} + (if a.wireBind.Some? then {a.wireBind.value} else {});
    forall s ensures s in ids + {a.id} <==> TakenId(l, i + 1, s) { TakenOne(syntax, cfg, i, s, [], []); }
    forall s ensures s in binds + sockets <==> TakenSocket(l, i + 1, s) { TakenOne(syntax, cfg, i, s, [], []); }
    forall s ensures s in advertises + {a.advertise} <==> TakenAdvertise(l, i + 1, s) {
      TakenOne(syntax, cfg, i, s, [], []);
    }
    forall k ensures k in keys + {(a.canon, a.verse)} <==> TakenKey(l, i + 1, k.0, k.1) {
      TakenOne(syntax, cfg, i, "", k.0, k.1);
    }
    var root := Root(syntax, cfg.prefix, a.canon, a.verse);
    forall s ensures s in roots + {root} <==> TakenRoot(syntax, cfg, i + 1, s) { TakenOne(syntax, cfg, i, s, [], []); }
    assert binds + {a.bind} + (if a.wireBind.Some? then {a.wireBind.value} else {}) == binds + sockets;
  }

  lemma {:induction false} CollectedNone(syntax: Syntax, cfg: Config)
    ensures Collected(syntax, cfg, 0, {}, {}, {}, {}, {})
  {
  }

  /** Checks the assignments in turn, remembering what each claims. */
  method ValidateMultiAssignment(syntax: Syntax, cfg: Config) returns (fault: Option<Fault>)
    ensures fault == ConfigFault(syntax, cfg)
  {
    hide Root, Deployment, Trim, HasDots, TakenId, TakenSocket, TakenAdvertise, TakenKey, TakenRoot, GeneralFault,
        RootFault, BadSegment;
    var general := GeneralFault(syntax, cfg);
    if general.Some? { return general; }
    var ids: set<string>, binds: set<string>, advertises: set<string> := {}, {}, {};
    var keys: set<(Bytes, Bytes)>, roots: set<string> := {}, {};
    CollectedNone(syntax, cfg);
    for i := 0 to |cfg.assignments|
      invariant Collected(syntax, cfg, i, ids, binds, advertises, keys, roots)
      invariant FaultFrom(syntax, cfg, 0) == FaultFrom(syntax, cfg, i)
    {
      var a := cfg.assignments[i];
      CollectedOne(syntax, cfg, i, ids, binds, advertises, keys, roots);
      if BadSegment(syntax, a.id) { return Some(BadId); }
      if a.id in ids { return Some(DuplicateId); }
      ids := ids + {a.id};
      if Trim(syntax.space, a.bind) == "" { return Some(EmptyBind); }
      if a.bind in binds { return Some(DuplicateBind); }
      binds := binds + {a.bind};
      if a.wireBind.Some? {
        if Trim(syntax.space, a.wireBind.value) == "" { return Some(EmptyWireBind); }
        if a.wireBind.value in binds { return Some(DuplicateWireBind); }
        binds := binds + {a.wireBind.value};
      }
      if !syntax.endpoint(a.advertise) { return Some(BadAdvertise); }
      if a.advertise in advertises { return Some(DuplicateAdvertise); }
      advertises := advertises + {a.advertise};
      if |a.canon| != 16 || |a.verse| != 16 || |a.cohort| != 16 || |a.writer| != 16 { return Some(BadFixedId); }
      if (a.canon, a.verse) in keys { return Some(DuplicateCanonVerse); }
      keys := keys + {(a.canon, a.verse)};
      var root := AssignmentDurableRoot(syntax, cfg.prefix, a.canon, a.verse);
      var last := RootFault(Deployment(syntax, cfg.prefix), root, root in roots);
      if last.Some? { return last; }
      roots := roots + {root};
    }
    return None;
  }
}
