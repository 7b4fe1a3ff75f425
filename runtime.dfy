/**
 * The generic runtime's own logic (`pypes/pypes/src/main.rs`): the safety gate in
 * front of loading, the per-provider wiring map with its sorted and deduplicated
 * `(export, import)` lists, the instantiate-until-no-progress retry loop, and the
 * entrypoint default.
 */
module Runtime {
  import opened Wrappers
  import opened Strings
  import opened Analyser

  // ---------------------------------------------------------------------------
  // The verify gate
  // ---------------------------------------------------------------------------

  /** What happens after the analysis: the process exits, stops after analysis, or loads. */
  datatype Gate = Exit(code: int) | AnalysisOnly | Load

  /** Runs the analyser on the blueprint and decides whether to go on. */
  method RunGate(bp: Blueprint, allowUnsafe: bool, verifyOnly: bool) returns (gate: Gate)
    ensures gate.Exit? ==> gate.code == 1
    ensures gate.Exit? <==> Expected(FinalCapabilities(bp)) != {} && !allowUnsafe
    ensures gate == AnalysisOnly <==> (Expected(FinalCapabilities(bp)) == {} || allowUnsafe) && verifyOnly
    ensures gate == Load <==> (Expected(FinalCapabilities(bp)) == {} || allowUnsafe) && !verifyOnly
  {
    var result := Verify(bp);
    if result.Err? && !allowUnsafe {
      return Exit(1);
    }
    if verifyOnly {
      return AnalysisOnly;
    }
    return Load;
  }

  // ---------------------------------------------------------------------------
  // The wiring map
  // ---------------------------------------------------------------------------

  /** An `(export, import)` entry of the wiring map. */
  type Link = (string, string)

  /** A provider key is used for linking when it has a `.` and its prefix is not `host`. */
  predicate Linkable(providerKey: string)
  {
    '.' in providerKey && Before(providerKey, '.') != "host"
  }

  /** The provider instance of a linkable key. */
  function ProviderOf(providerKey: string): string
  {
    Before(providerKey, '.')
  }

  /** The export name of a linkable key: everything after its first `.`. */
  function ExportOf(providerKey: string): string
    requires '.' in providerKey
  {
    After(providerKey, '.')
  }

  /** The linker instance name: the text after the consumer key's first `.`, or the whole key. */
  function ImportOf(consumerKey: string): (r: string)
    ensures '.' in consumerKey ==> consumerKey == Before(consumerKey, '.') + ['.'] + r
    ensures '.' !in consumerKey ==> r == consumerKey
  {
    if '.' in consumerKey then After(consumerKey, '.') else consumerKey
  }

  /** The providers that receive at least one entry from the wires in `done`. */
  ghost function ProvidersIn(wiring: map<string, string>, done: set<string>): set<string>
  {
    set k | k in done && k in wiring && Linkable(wiring[k]) :: ProviderOf(wiring[k])
  }

  /** The entries the wires in `done` contribute under provider `p`. */
  ghost function LinksIn(wiring: map<string, string>, done: set<string>, p: string): set<Link>
  {
    set k | k in done && k in wiring && Linkable(wiring[k]) && ProviderOf(wiring[k]) == p
      :: (ExportOf(wiring[k]), ImportOf(k))
  }

  ghost function Providers(wiring: map<string, string>): set<string>
  {
    ProvidersIn(wiring, wiring.Keys)
  }

  ghost function Links(wiring: map<string, string>, p: string): set<Link>
  {
    LinksIn(wiring, wiring.Keys, p)
  }

  /** The invariant of the grouping loop after the wires in `done` were processed. */
  ghost predicate Grouped(wiring: map<string, string>, done: set<string>, wm: map<string, seq<Link>>)
  {
    && wm.Keys == ProvidersIn(wiring, done)
    && forall p :: p in wm ==> forall l :: l in wm[p] <==> l in LinksIn(wiring, done, p)
  }

  /**
   * The grouping loop: every linkable wire pushes `(export, import)` onto the list of
   * its provider prefix; the others are skipped. Map iteration order is a free choice.
   */
  method GroupWires(wiring: map<string, string>) returns (wm: map<string, seq<Link>>)
    ensures Grouped(wiring, wiring.Keys, wm)
  {
    wm := map[];
    var todo := wiring.Keys;
    while todo != {}
      invariant todo <= wiring.Keys
      invariant Grouped(wiring, wiring.Keys - todo, wm)
      decreases todo
    {
      var consumerKey :| consumerKey in todo;
      var providerKey := wiring[consumerKey];
      ghost var done := wiring.Keys - todo;
      todo := todo - {consumerKey};
      assert wiring.Keys - todo == done + {consumerKey};
      var pParts := SplitN2(providerKey, '.');
      if |pParts| < 2 {
        GroupedSkip(wiring, done, consumerKey, wm);
        continue;
      }
      if pParts[0] == "host" {
        GroupedSkip(wiring, done, consumerKey, wm);
        continue;
      }
      var provider := pParts[0];
      var exportName := pParts[1];
      var cParts := SplitN2(consumerKey, '.');
      var importName := if |cParts| == 2 then cParts[1] else consumerKey;
      assert importName == ImportOf(consumerKey);
      var old_wm := wm;
      var entries := if provider in wm then wm[provider] else [];
      wm := wm[provider := entries + [(exportName, importName)]];
      GroupedPush(wiring, done, consumerKey, old_wm, wm);
    }
  }

  /** One more visited wire adds its provider, if it is linkable. */
  lemma ProvidersInAdd(wiring: map<string, string>, done: set<string>, k: string)
    requires k in wiring
    ensures ProvidersIn(wiring, done + {k}) ==
      ProvidersIn(wiring, done) + (if Linkable(wiring[k]) then {ProviderOf(wiring[k])} else {})
  {
  }

  /** One more visited wire adds its entry under its own provider and nowhere else. */
  lemma LinksInAdd(wiring: map<string, string>, done: set<string>, k: string, p: string)
    requires k in wiring
    ensures LinksIn(wiring, done + {k}, p) ==
      LinksIn(wiring, done, p)
      + (if Linkable(wiring[k]) && ProviderOf(wiring[k]) == p
         then {(ExportOf(wiring[k]), ImportOf(k))} else {})
  {
  }

  /** A provider without entries so far has no links so far. */
  lemma LinksInEmpty(wiring: map<string, string>, done: set<string>, p: string)
    requires p !in ProvidersIn(wiring, done)
    ensures LinksIn(wiring, done, p) == {}
  {
  }

  lemma GroupedSkip(wiring: map<string, string>, done: set<string>, k: string,
                    wm: map<string, seq<Link>>)
    requires k in wiring && !Linkable(wiring[k])
    requires Grouped(wiring, done, wm)
    ensures Grouped(wiring, done + {k}, wm)
  {
    ProvidersInAdd(wiring, done, k);
    forall p | p in wm
      ensures LinksIn(wiring, done + {k}, p) == LinksIn(wiring, done, p)
    {
      LinksInAdd(wiring, done, k, p);
    }
  }

  lemma GroupedPush(wiring: map<string, string>, done: set<string>, k: string,
                    wm: map<string, seq<Link>>, wm': map<string, seq<Link>>)
    requires k in wiring && Linkable(wiring[k])
    requires Grouped(wiring, done, wm)
    requires var p := ProviderOf(wiring[k]);
      wm' == wm[p := (if p in wm then wm[p] else []) + [(ExportOf(wiring[k]), ImportOf(k))]]
    ensures Grouped(wiring, done + {k}, wm')
  {
    var p := ProviderOf(wiring[k]);
    var link := (ExportOf(wiring[k]), ImportOf(k));
    ProvidersInAdd(wiring, done, k);
    if p !in wm {
      LinksInEmpty(wiring, done, p);
    }
    forall q | q in wm'
      ensures forall l :: l in wm'[q] <==> l in LinksIn(wiring, done + {k}, q)
    {
      LinksInAdd(wiring, done, k, q);
    }
  }

  /** Rust's tuple order: by export name, then by import name, both byte-wise. */
  predicate LinkLess(a: Link, b: Link)
  {
    Less(a.0, b.0) || (a.0 == b.0 && Less(a.1, b.1))
  }

  lemma LinkLessIrreflexive(a: Link)
    ensures !LinkLess(a, a)
  {
    LessIrreflexive(a.0);
    LessIrreflexive(a.1);
  }

  lemma LinkLessTransitive(a: Link, b: Link, c: Link)
    requires LinkLess(a, b) && LinkLess(b, c)
    ensures LinkLess(a, c)
  {
    if Less(a.0, b.0) && Less(b.0, c.0) {
      LessTransitive(a.0, b.0, c.0);
    } else if !Less(a.0, b.0) && !Less(b.0, c.0) {
      LessTransitive(a.1, b.1, c.1);
    }
  }

  lemma LinkLessTotal(a: Link, b: Link)
    requires a != b
    ensures LinkLess(a, b) || LinkLess(b, a)
  {
    if a.0 != b.0 {
      LessTotal(a.0, b.0);
    } else {
      LessTotal(a.1, b.1);
    }
  }

  /** Non-decreasing order: no later entry is smaller than an earlier one. */
  ghost predicate Sorted(s: seq<Link>)
  {
    forall i, j :: 0 <= i < j < |s| ==> !LinkLess(s[j], s[i])
  }

  /** Strictly increasing order, which also rules out duplicates. */
  ghost predicate StrictlySorted(s: seq<Link>)
  {
    forall i, j :: 0 <= i < j < |s| ==> LinkLess(s[i], s[j])
  }

  /** Inserting one entry into a sorted list keeps it sorted and adds exactly that entry. */
  function Insert(s: seq<Link>, x: Link): (r: seq<Link>)
    requires Sorted(s)
    ensures Sorted(r)
    ensures multiset(r) == multiset(s) + multiset{x}
    decreases |s|
  {
    if s == [] then [x]
    else if !LinkLess(s[0], x) then InsertFront(s, x)
    else InsertAfter(s, x)
  }

  function InsertFront(s: seq<Link>, x: Link): (r: seq<Link>)
    requires Sorted(s) && s != [] && !LinkLess(s[0], x)
    ensures r == [x] + s && Sorted(r)
  {
    assert forall j :: 0 <= j < |s| ==> !LinkLess(s[j], x) by {
      forall j | 0 <= j < |s|
        ensures !LinkLess(s[j], x)
      {
        if LinkLess(s[j], x) {
          if j > 0 {
            if s[j] == s[0] {
            } else {
              LinkLessTotal(s[j], s[0]);
              LinkLessTransitive(s[0], s[j], x);
            }
          }
        }
      }
    }
    [x] + s
  }

  function InsertAfter(s: seq<Link>, x: Link): (r: seq<Link>)
    requires Sorted(s) && s != [] && LinkLess(s[0], x)
    ensures Sorted(r)
    ensures multiset(r) == multiset(s) + multiset{x}
    decreases |s|, 0
  {
    var rest := Insert(s[1..], x);
    assert s == [s[0]] + s[1..];
    assert forall y :: y in rest ==> y in multiset(s[1..]) + multiset{x};
    assert forall j :: 0 <= j < |rest| ==> !LinkLess(rest[j], s[0]) by {
      forall j | 0 <= j < |rest|
        ensures !LinkLess(rest[j], s[0])
      {
        assert rest[j] in multiset(rest);
        if rest[j] == x {
          LinkLessIrreflexive(s[0]);
          if LinkLess(x, s[0]) {
            LinkLessTransitive(s[0], x, s[0]);
          }
        } else {
          assert rest[j] in s[1..];
        }
      }
    }
    [s[0]] + rest
  }

  /** `list.sort()`: an insertion sort; a sorted permutation of the list. */
  method Sort(list: seq<Link>) returns (sorted: seq<Link>)
    ensures Sorted(sorted)
    ensures multiset(sorted) == multiset(list)
  {
    sorted := [];
    var i := 0;
    while i < |list|
      invariant 0 <= i <= |list|
      invariant Sorted(sorted)
      invariant multiset(sorted) == multiset(list[..i])
    {
      sorted := Insert(sorted, list[i]);
      assert list[..i + 1] == list[..i] + [list[i]];
      i := i + 1;
    }
    assert list[..i] == list;
  }

  /** `Vec::dedup` as a reference: an entry equal to the one just before it is dropped. */
  function Dedupped(s: seq<Link>): seq<Link>
    decreases |s|
  {
    if |s| <= 1 then s
    else if s[|s| - 1] == s[|s| - 2] then Dedupped(s[..|s| - 1])
    else Dedupped(s[..|s| - 1]) + [s[|s| - 1]]
  }

  /** Only adjacent repeats go: an entry recurring after a different one is kept. */
  lemma DeduppedKeepsSeparated(a: Link, b: Link)
    requires a != b
    ensures Dedupped([a, b, a]) == [a, b, a]
    ensures Dedupped([a, a, b]) == [a, b]
  {
    assert [a, b][..1] == [a];
    assert Dedupped([a, b]) == [a, b];
    assert [a, b, a][..2] == [a, b];
    assert [a, a][..1] == [a];
    assert Dedupped([a, a]) == [a];
    assert [a, a, b][..2] == [a, a];
  }

  /** `list.dedup()`: drops every entry equal to the one kept before it. */
  method Dedup(s: seq<Link>) returns (r: seq<Link>)
    ensures r == Dedupped(s)
    ensures forall l :: l in r <==> l in s
    ensures forall i :: 0 < i < |r| ==> r[i - 1] != r[i]
    ensures Sorted(s) ==> StrictlySorted(r)
  {
    r := [];
    var i := 0;
    while i < |s|
      invariant 0 <= i <= |s|
      invariant r == Dedupped(s[..i])
      invariant forall l :: l in r <==> l in s[..i]
      invariant forall k :: 0 < k < |r| ==> r[k - 1] != r[k]
      invariant i > 0 <==> r != []
      invariant i > 0 ==> r[|r| - 1] == s[i - 1]
      invariant Sorted(s) ==> StrictlySorted(r)
    {
      if r == [] || r[|r| - 1] != s[i] {
        if Sorted(s) && r != [] {
          var last := r[|r| - 1];
          assert !LinkLess(s[i], s[i - 1]);
          LinkLessTotal(last, s[i]);
          forall k | 0 <= k < |r|
            ensures LinkLess(r[k], s[i])
          {
            if k < |r| - 1 {
              LinkLessTransitive(r[k], last, s[i]);
            }
          }
        }
        r := r + [s[i]];
      }
      assert s[..i + 1] == s[..i] + [s[i]];
      assert s[..i + 1][..i] == s[..i];
      i := i + 1;
    }
    assert s[..i] == s;
  }

  /** Sorting and then deduplicating leaves each distinct entry once, in increasing order. */
  method SortDedup(list: seq<Link>) returns (r: seq<Link>)
    ensures StrictlySorted(r)
    ensures forall l :: l in r <==> l in list
  {
    var sorted := Sort(list);
    r := Dedup(sorted);
    forall l
      ensures l in sorted <==> l in list
    {
      assert l in sorted <==> l in multiset(sorted);
    }
  }

  /** A list without entries is empty. */
  lemma NoEntries(a: seq<Link>)
    ensures (forall l :: l !in a) ==> a == []
  {
    if a != [] {
      assert a[0] in a;
    }
  }

  /** The first entry of a strictly increasing list is below all the others. */
  lemma HeadIsLeast(a: seq<Link>)
    requires StrictlySorted(a) && a != []
    ensures forall l :: l in a ==> l == a[0] || LinkLess(a[0], l)
  {
  }

  /**
   * Two strictly increasing lists with the same entries are equal, so the final lists
   * of the wiring map do not depend on the order in which wires were visited.
   */
  lemma {:induction false} StrictlySortedUnique(a: seq<Link>, b: seq<Link>)
    requires StrictlySorted(a) && StrictlySorted(b)
    requires forall l :: l in a <==> l in b
    ensures a == b
    decreases |a|
  {
    if a == [] {
      NoEntries(b);
    } else if b == [] {
      NoEntries(a);
    } else {
      HeadIsLeast(a);
      HeadIsLeast(b);
      assert a[0] in a && b[0] in b;
      if a[0] != b[0] {
        LinkLessTransitive(a[0], b[0], a[0]);
        LinkLessIrreflexive(a[0]);
      }
      forall l
        ensures l in a[1..] <==> l in b[1..]
      {
        if l in a[1..] {
          var i :| 1 <= i < |a| && a[i] == l;
          assert LinkLess(a[0], l);
          if l == b[0] {
            LinkLessIrreflexive(l);
          }
          assert l in b;
        }
        if l in b[1..] {
          var i :| 1 <= i < |b| && b[i] == l;
          assert LinkLess(b[0], l);
          if l == a[0] {
            LinkLessIrreflexive(l);
          }
          assert l in a;
        }
      }
      StrictlySortedUnique(a[1..], b[1..]);
      assert a == [a[0]] + a[1..];
      assert b == [b[0]] + b[1..];
    }
  }

  /**
   * The wiring map: one strictly sorted list per provider that some linkable wire
   * names, holding exactly that provider's `(export, import)` entries.
   */
  method BuildWiringMap(wiring: map<string, string>) returns (wm: map<string, seq<Link>>)
    ensures wm.Keys == Providers(wiring)
    ensures forall p :: p in wm ==> StrictlySorted(wm[p])
    ensures forall p, l :: p in wm ==> (l in wm[p] <==> l in Links(wiring, p))
  {
    var grouped := GroupWires(wiring);
    wm := map[];
    var todo := grouped.Keys;
    while todo != {}
      invariant todo <= grouped.Keys
      invariant wm.Keys == grouped.Keys - todo
      invariant forall p :: p in wm ==> StrictlySorted(wm[p])
      invariant forall p, l :: p in wm ==> (l in wm[p] <==> l in grouped[p])
      decreases todo
    {
      var p :| p in todo;
      var list := SortDedup(grouped[p]);
      wm := wm[p := list];
      todo := todo - {p};
    }
  }

  // ---------------------------------------------------------------------------
  // The retry loop
  // ---------------------------------------------------------------------------

  /** The elements of a sequence. */
  function Elems(s: seq<string>): set<string>
  {
    set x | x in s
  }

  /** `idx` picks, in increasing positions of `s`, the entries of `sub`. */
  ghost predicate Embedding(idx: seq<nat>, sub: seq<string>, s: seq<string>)
  {
    && |idx| == |sub|
    && (forall k :: 0 <= k < |idx| ==> idx[k] < |s| && sub[k] == s[idx[k]])
    && (forall k, m :: 0 <= k < m < |idx| ==> idx[k] < idx[m])
  }

  /** `sub` lists some entries of `s` in the order they have there. */
  ghost predicate Subsequence(sub: seq<string>, s: seq<string>)
  {
    exists idx: seq<nat> :: Embedding(idx, sub, s)
  }

  lemma SubsequenceTransitive(a: seq<string>, b: seq<string>, c: seq<string>)
    requires Subsequence(a, b) && Subsequence(b, c)
    ensures Subsequence(a, c)
  {
    var ia: seq<nat> :| Embedding(ia, a, b);
    var ib: seq<nat> :| Embedding(ib, b, c);
    var idx: seq<nat> := seq(|ia|, k requires 0 <= k < |ia| => ib[ia[k]]);
    forall k, m | 0 <= k < m < |idx|
      ensures idx[k] < idx[m]
    {
      assert ia[k] < ia[m];
    }
    assert Embedding(idx, a, c);
  }

  /**
   * One round over `pending`: each name is tried in order against the instances
   * so far; a success is recorded at once, a failure is kept for the next round.
   */
  method TryRound(pending: seq<string>, instances: seq<string>,
                  ok: (string, set<string>) -> bool)
    returns (instancesAfter: seq<string>, next: seq<string>, progress: bool)
    requires NoDuplicates(pending) && NoDuplicates(instances)
    requires Elems(pending) !! Elems(instances)
    ensures NoDuplicates(instancesAfter) && NoDuplicates(next)
    ensures Elems(next) !! Elems(instancesAfter)
    ensures Elems(next) + Elems(instancesAfter) == Elems(pending) + Elems(instances)
    ensures |instancesAfter| >= |instances| && instancesAfter[..|instances|] == instances
    ensures forall i :: |instances| <= i < |instancesAfter| ==>
      ok(instancesAfter[i], Elems(instancesAfter[..i]))
    ensures Subsequence(next, pending)
    ensures progress <==> |next| < |pending|
    ensures !progress ==> next == pending && instancesAfter == instances
    ensures !progress ==> forall n :: n in pending ==> !ok(n, Elems(instances))
  {
    instancesAfter := instances;
    next := [];
    progress := false;
    ghost var idx: seq<nat> := [];
    var i := 0;
    while i < |pending|
      invariant 0 <= i <= |pending|
      invariant NoDuplicates(instancesAfter) && NoDuplicates(next)
      invariant Elems(next) !! Elems(instancesAfter)
      invariant Elems(next) + Elems(instancesAfter) == Elems(pending[..i]) + Elems(instances)
      invariant Elems(next) <= Elems(pending[..i])
      invariant Elems(pending[i..]) !! Elems(next) + Elems(instancesAfter)
      invariant |instancesAfter| >= |instances| && instancesAfter[..|instances|] == instances
      invariant forall j :: |instances| <= j < |instancesAfter| ==>
        ok(instancesAfter[j], Elems(instancesAfter[..j]))
      invariant |idx| == |next|
      invariant forall k :: 0 <= k < |idx| ==> idx[k] < i && next[k] == pending[idx[k]]
      invariant forall k, m :: 0 <= k < m < |idx| ==> idx[k] < idx[m]
      invariant progress <==> |next| < i
      invariant !progress ==> next == pending[..i] && instancesAfter == instances
      invariant !progress ==> forall n :: n in pending[..i] ==> !ok(n, Elems(instances))
    {
      var name := pending[i];
      assert pending[..i + 1] == pending[..i] + [name];
      assert name in Elems(pending[i..]);
      assert Elems(pending[i + 1..]) <= Elems(pending[i..]) by {
        assert pending[i..] == [name] + pending[i + 1..];
      }
      assert name !in Elems(pending[i + 1..]);
      if ok(name, Elems(instancesAfter)) {
        var grown := instancesAfter + [name];
        assert grown[..|instancesAfter|] == instancesAfter;
        assert forall j :: 0 <= j <= |instancesAfter| ==> grown[..j] == instancesAfter[..j];
        instancesAfter := grown;
        progress := true;
      } else {
        idx := idx + [i];
        next := next + [name];
      }
      i := i + 1;
    }
    assert pending[..i] == pending;
    assert Embedding(idx, next, pending);
  }

  /**
   * The retry loop: rounds repeat while something is pending and the previous round
   * instantiated at least one component. `names` is the component list in map order.
   */
  method InstantiateAll(names: seq<string>, ok: (string, set<string>) -> bool)
    returns (instances: seq<string>, pending: seq<string>)
    requires NoDuplicates(names)
    ensures NoDuplicates(instances) && NoDuplicates(pending)
    ensures Elems(instances) !! Elems(pending)
    ensures Elems(instances) + Elems(pending) == Elems(names)
    ensures forall i :: 0 <= i < |instances| ==> ok(instances[i], Elems(instances[..i]))
    ensures Subsequence(pending, names)
    ensures forall n :: n in pending ==> !ok(n, Elems(instances))
  {
    instances := [];
    pending := names;
    var madeProgress := true;
    assert Subsequence(pending, names) by {
      var idx: seq<nat> := seq(|names|, k requires 0 <= k < |names| => k);
      assert Embedding(idx, pending, names);
    }
    while pending != [] && madeProgress
      invariant NoDuplicates(instances) && NoDuplicates(pending)
      invariant Elems(instances) !! Elems(pending)
      invariant Elems(instances) + Elems(pending) == Elems(names)
      invariant forall i :: 0 <= i < |instances| ==> ok(instances[i], Elems(instances[..i]))
      invariant Subsequence(pending, names)
      invariant !madeProgress ==> forall n :: n in pending ==> !ok(n, Elems(instances))
      decreases |pending| + (if madeProgress then 1 else 0)
    {
      var before := pending;
      var instancesAfter, next, progress := TryRound(pending, instances, ok);
      forall i | 0 <= i < |instancesAfter|
        ensures ok(instancesAfter[i], Elems(instancesAfter[..i]))
      {
        if i < |instances| {
          assert instancesAfter[..i] == instances[..i];
        }
      }
      instances := instancesAfter;
      madeProgress := progress;
      pending := next;
      SubsequenceTransitive(pending, before, names);
    }
    if pending != [] {
      assert !madeProgress;
    }
  }

  // ---------------------------------------------------------------------------
  // The entrypoint
  // ---------------------------------------------------------------------------

  /** The component whose `run` is called: the one named on the command line, else "orchestrator". */
  function Entrypoint(arg: Option<string>): (name: string)
    ensures arg == None ==> name == "orchestrator"
    ensures arg.Some? ==> name == arg.value
  {
    match arg
    case None => "orchestrator"
    case Some(n) => n
  }

  /** Running the entrypoint needs it to be among the instances. */
  datatype Launch = Run(entry: string) | NotInstantiable(entry: string)

  function SelectEntrypoint(arg: Option<string>, instances: set<string>): (r: Launch)
    ensures r.entry == Entrypoint(arg)
    ensures r.Run? <==> Entrypoint(arg) in instances
  {
    var entry := Entrypoint(arg);
    if entry in instances then Run(entry) else NotInstantiable(entry)
  }
}
