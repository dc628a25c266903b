/** Selective linking: of an archive the linker takes the members that define what is missing, again
    and again until nothing changes. */
module Archive {
  import opened Cpu
  import opened Objects
  import opened Linker
  import opened LinkMeaning

  predicate Defines(o: Object, name: string) { exists i :: 0 <= i < |o.syms| && DefinedHere(o.syms[i], name) }

  predicate References(o: Object, name: string) { exists i :: 0 <= i < |o.relocs| && o.relocs[i].sym == name }

  predicate Provides(o: Object, name: string) {
    exists i :: 0 <= i < |o.syms| && Exported(o.syms[i]) && o.syms[i].name == name
  }

  /** The explicit objects and the members taken so far, in the order they were taken. */
  predicate Valid(memb: seq<Object>, taken: seq<nat>) { forall j | 0 <= j < |taken| :: taken[j] < |memb| }

  predicate Referenced(expl: seq<Object>, memb: seq<Object>, taken: seq<nat>, name: string)
    requires Valid(memb, taken)
  {
    || (exists e :: 0 <= e < |expl| && References(expl[e], name))
    || (exists j :: 0 <= j < |taken| && References(memb[taken[j]], name))
  }

  predicate Defined(expl: seq<Object>, memb: seq<Object>, taken: seq<nat>, name: string)
    requires Valid(memb, taken)
  {
    || (exists e :: 0 <= e < |expl| && Defines(expl[e], name))
    || (exists j :: 0 <= j < |taken| && Defines(memb[taken[j]], name))
  }

  /** Member `k` provides a name that is referenced and not yet defined. */
  predicate Needed(expl: seq<Object>, memb: seq<Object>, taken: seq<nat>, k: nat)
    requires Valid(memb, taken) && k < |memb|
  {
    exists s :: 0 <= s < |memb[k].syms| && NeededFor(expl, memb, taken, memb[k].syms[s])
  }

  predicate NeededFor(expl: seq<Object>, memb: seq<Object>, taken: seq<nat>, sym: Symbol)
    requires Valid(memb, taken)
  {
    Exported(sym) && Referenced(expl, memb, taken, sym.name) && !Defined(expl, memb, taken, sym.name)
  }

  /** Every member was needed when it was taken. */
  predicate Justified(expl: seq<Object>, memb: seq<Object>, taken: seq<nat>) {
    && Valid(memb, taken)
    && forall j | 0 <= j < |taken| :: taken[j] !in taken[..j] && Needed(expl, memb, taken[..j], taken[j])
  }

  /** The member taken last; before the first, past them all. */
  function Latest(memb: seq<Object>, taken: seq<nat>): nat {
    if taken == [] then |memb| else taken[|taken| - 1]
  }

  /** Going through the archives from `p` on, and again from the start, `i` comes before `k`. */
  predicate Between(p: nat, i: nat, k: nat) { if p < k then p < i < k else p < i || i < k }

  predicate NoneBetween(expl: seq<Object>, memb: seq<Object>, taken: seq<nat>, p: nat, k: nat)
    requires Valid(memb, taken)
  {
    forall i | 0 <= i < |memb| && i !in taken && Between(p, i, k) :: !Needed(expl, memb, taken, i)
  }

  /** The archives are gone through in order, again and again: nobody was passed over. */
  predicate InTurn(expl: seq<Object>, memb: seq<Object>, taken: seq<nat>)
    requires Valid(memb, taken)
    decreases |taken|
  {
    taken == [] ||
    var before := taken[..|taken| - 1];
    InTurn(expl, memb, before) && NoneBetween(expl, memb, before, Latest(memb, before), taken[|taken| - 1])
  }

  /** Gone round to `k` since the last one was taken. */
  predicate RoundTo(expl: seq<Object>, memb: seq<Object>, taken: seq<nat>, k: nat) {
    && Justified(expl, memb, taken) && InTurn(expl, memb, taken)
    && NoneBetween(expl, memb, taken, Latest(memb, taken), k)
  }

  // --- the loop ----------------------------------------------------------------------------------------

  predicate Marks(memb: seq<Object>, incl: seq<bool>, taken: seq<nat>) {
    && |incl| == |memb| && Valid(memb, taken) && forall k | 0 <= k < |memb| :: incl[k] <==> k in taken
  }

  function Missing(incl: seq<bool>): nat {
    if incl == [] then 0 else (if incl[0] then 0 else 1) + Missing(incl[1..])
  }

  lemma {:induction false} MarkingShrinks(incl: seq<bool>, k: nat)
    requires k < |incl| && !incl[k]
    ensures Missing(incl[k := true]) < Missing(incl)
    decreases |incl|
  {
    if k > 0 {
      assert incl[k := true][1..] == incl[1..][k - 1 := true];
      MarkingShrinks(incl[1..], k - 1);
    } else {
      assert incl[k := true][1..] == incl[1..];
    }
  }

  method IsReferenced(expl: seq<Object>, memb: seq<Object>, incl: seq<bool>, ghost taken: seq<nat>, name: string)
    returns (yes: bool)
    requires Marks(memb, incl, taken)
    ensures yes == Referenced(expl, memb, taken, name)
  {
    for e := 0 to |expl|
      invariant forall d | 0 <= d < e :: !References(expl[d], name)
    {
      if exists i :: 0 <= i < |expl[e].relocs| && expl[e].relocs[i].sym == name {
        return true;
      }
    }
    for j := 0 to |memb|
      invariant forall d | 0 <= d < |taken| && taken[d] < j :: !References(memb[taken[d]], name)
    {
      if incl[j] && exists i :: 0 <= i < |memb[j].relocs| && memb[j].relocs[i].sym == name {
        assert References(memb[j], name);
        return true;
      }
    }
    yes := false;
  }

  method IsDefined(expl: seq<Object>, memb: seq<Object>, incl: seq<bool>, ghost taken: seq<nat>, name: string)
    returns (yes: bool)
    requires Marks(memb, incl, taken)
    ensures yes == Defined(expl, memb, taken, name)
  {
    for e := 0 to |expl|
      invariant forall d | 0 <= d < e :: !Defines(expl[d], name)
    {
      if exists i :: 0 <= i < |expl[e].syms| && DefinedHere(expl[e].syms[i], name) {
        return true;
      }
    }
    for j := 0 to |memb|
      invariant forall d | 0 <= d < |taken| && taken[d] < j :: !Defines(memb[taken[d]], name)
    {
      if incl[j] && exists i :: 0 <= i < |memb[j].syms| && DefinedHere(memb[j].syms[i], name) {
        assert Defines(memb[j], name);
        return true;
      }
    }
    yes := false;
  }

  method IsNeeded(expl: seq<Object>, memb: seq<Object>, incl: seq<bool>, ghost taken: seq<nat>, k: nat)
    returns (yes: bool)
    requires Marks(memb, incl, taken) && k < |memb|
    ensures yes == Needed(expl, memb, taken, k)
  {
    for s := 0 to |memb[k].syms|
      invariant forall i | 0 <= i < s :: !NeededFor(expl, memb, taken, memb[k].syms[i])
    {
      var sym := memb[k].syms[s];
      if sym.binding == Global && sym.section != NoSection {
        var referenced := IsReferenced(expl, memb, incl, taken, sym.name);
        var defined := IsDefined(expl, memb, incl, taken, sym.name);
        if referenced && !defined {
          assert NeededFor(expl, memb, taken, memb[k].syms[s]);
          return true;
        }
      }
    }
    yes := false;
  }

  /** Members up to `k` looked at in a pass. */
  ghost predicate Looked(expl: seq<Object>, memb: seq<Object>, taken: seq<nat>, k: nat, changed: bool) {
    && RoundTo(expl, memb, taken, if changed then k else 0)
    && if changed then Latest(memb, taken) < k
       else forall j | 0 <= j < k && j < |memb| && j !in taken :: !Needed(expl, memb, taken, j)
  }

  lemma LookedAt(expl: seq<Object>, memb: seq<Object>, taken: seq<nat>, k: nat, changed: bool)
    requires Looked(expl, memb, taken, k, changed) && k < |memb| && (k in taken || !Needed(expl, memb, taken, k))
    ensures Looked(expl, memb, taken, k + 1, changed)
  {
  }

  lemma LookedAtAll(expl: seq<Object>, memb: seq<Object>, taken: seq<nat>, changed: bool)
    requires Looked(expl, memb, taken, |memb|, changed)
    ensures Looked(expl, memb, taken, 0, false)
  {
  }

  lemma MarkingMarks(memb: seq<Object>, incl: seq<bool>, taken: seq<nat>, k: nat)
    requires Marks(memb, incl, taken) && k < |memb| && !incl[k]
    ensures Marks(memb, incl[k := true], taken + [k]) && Missing(incl[k := true]) < Missing(incl)
  {
    MarkingShrinks(incl, k);
  }

  lemma FirstNeeded(expl: seq<Object>, memb: seq<Object>, taken: seq<nat>, k: nat, changed: bool)
    requires Looked(expl, memb, taken, k, changed) && k < |memb| && k !in taken && Needed(expl, memb, taken, k)
    ensures Looked(expl, memb, taken + [k], k + 1, true)
  {
    if !changed && Latest(memb, taken) < k {
      assert Between(Latest(memb, taken), k, 0);
      assert false;
    }
    TakeKeeps(expl, memb, taken, k);
  }

  /** One pass over the members. If it changed nothing, no member that is out is needed. */
  method Pass(expl: seq<Object>, memb: seq<Object>, incl: seq<bool>, ghost taken: seq<nat>)
    returns (out: seq<bool>, changed: bool, ghost now: seq<nat>)
    requires Marks(memb, incl, taken) && Looked(expl, memb, taken, 0, false)
    ensures Marks(memb, out, now) && Looked(expl, memb, now, 0, false)
    ensures if changed then Missing(out) < Missing(incl) else out == incl
    ensures !changed ==> forall k | 0 <= k < |memb| && !out[k] :: !Needed(expl, memb, now, k)
  {
    out, changed, now := incl, false, taken;
    for k := 0 to |memb|
      invariant Marks(memb, out, now) && Looked(expl, memb, now, k, changed)
      invariant if changed then Missing(out) < Missing(incl) else out == incl && now == taken
    {
      if out[k] {
        LookedAt(expl, memb, now, k, changed);
        continue;
      }
      var needed := IsNeeded(expl, memb, out, now, k);
      if needed {
        MarkingMarks(memb, out, now, k);
        FirstNeeded(expl, memb, now, k, changed);
        out, changed, now := out[k := true], true, now + [k];
      } else {
        LookedAt(expl, memb, now, k, changed);
      }
    }
    LookedAtAll(expl, memb, now, changed);
  }

  lemma TakeKeeps(expl: seq<Object>, memb: seq<Object>, taken: seq<nat>, k: nat)
    requires RoundTo(expl, memb, taken, k) && k < |memb| && k !in taken && Needed(expl, memb, taken, k)
    ensures RoundTo(expl, memb, taken + [k], k + 1)
  {
    TakeJustified(expl, memb, taken, k);
    assert (taken + [k])[..|taken|] == taken;
  }

  lemma TakeJustified(expl: seq<Object>, memb: seq<Object>, taken: seq<nat>, k: nat)
    requires Justified(expl, memb, taken) && k < |memb| && k !in taken && Needed(expl, memb, taken, k)
    ensures Justified(expl, memb, taken + [k])
  {
    var more := taken + [k];
    forall j | 0 <= j < |more|
      ensures more[j] !in more[..j] && Needed(expl, memb, more[..j], more[j])
    {
      assert more[..j] == taken[..j];
      assert taken[..|taken|] == taken;
    }
  }

  /** The marked members were taken in the order `taken`, each needed when it was taken and the first one
      that was from the one before it on, and none left out would still be. */
  ghost predicate Selected(expl: seq<Object>, memb: seq<Object>, incl: seq<bool>, taken: seq<nat>) {
    && Marks(memb, incl, taken) && Justified(expl, memb, taken) && InTurn(expl, memb, taken)
    && forall k | 0 <= k < |memb| && !incl[k] :: !Needed(expl, memb, taken, k)
  }

  /** The selection, which ends. */
  method Select(expl: seq<Object>, memb: seq<Object>) returns (incl: seq<bool>)
    ensures exists taken :: Selected(expl, memb, incl, taken)
  {
    incl := seq(|memb|, k => false);
    ghost var taken: seq<nat> := [];
    var changed := true;
    while changed
      invariant Marks(memb, incl, taken) && Looked(expl, memb, taken, 0, false)
      invariant !changed ==> forall k | 0 <= k < |memb| && !incl[k] :: !Needed(expl, memb, taken, k)
      decreases Missing(incl), changed
    {
      incl, changed, taken := Pass(expl, memb, incl, taken);
    }
    assert Selected(expl, memb, incl, taken);
  }

  // --- the order of the selection -----------------------------------------------------------------------

  /** Going on from the member taken last, `k` is the first that is needed. */
  predicate First(expl: seq<Object>, memb: seq<Object>, taken: seq<nat>, k: nat)
    requires Valid(memb, taken)
  {
    && k < |memb| && k !in taken && Needed(expl, memb, taken, k)
    && NoneBetween(expl, memb, taken, Latest(memb, taken), k)
  }

  lemma OneIsFirst(expl: seq<Object>, memb: seq<Object>, taken: seq<nat>, k: nat, q: nat)
    requires Valid(memb, taken) && First(expl, memb, taken, k) && First(expl, memb, taken, q)
    ensures k == q
  {
    var p := Latest(memb, taken);
    assert !Between(p, q, k) && !Between(p, k, q);
  }

  lemma {:induction false} TurnOf(expl: seq<Object>, memb: seq<Object>, taken: seq<nat>, j: nat)
    requires Valid(memb, taken) && InTurn(expl, memb, taken) && j < |taken|
    ensures NoneBetween(expl, memb, taken[..j], Latest(memb, taken[..j]), taken[j])
    decreases |taken|
  {
    var before := taken[..|taken| - 1];
    if j < |before| {
      TurnOf(expl, memb, before, j);
      assert before[..j] == taken[..j];
    }
  }

  /** What is taken next is the first that is needed, and at the end there is none. */
  lemma FirstTaken(expl: seq<Object>, memb: seq<Object>, incl: seq<bool>, taken: seq<nat>, j: nat, k: nat)
    requires Selected(expl, memb, incl, taken) && j <= |taken|
    ensures First(expl, memb, taken[..j], k) <==> j < |taken| && taken[j] == k
  {
    if j < |taken| {
      TurnOf(expl, memb, taken, j);
      assert First(expl, memb, taken[..j], taken[j]);
      if First(expl, memb, taken[..j], k) {
        OneIsFirst(expl, memb, taken[..j], taken[j], k);
      }
    } else {
      assert taken[..j] == taken;
    }
  }

  /** After the member taken last, here `p`, the next one taken is the first needed that follows it, and if
      none does the first needed of all; before any is, `p` is past them all. */
  lemma NextIsFirst(expl: seq<Object>, memb: seq<Object>, incl: seq<bool>, taken: seq<nat>, j: nat, p: nat, k: nat)
    requires Selected(expl, memb, incl, taken) && j <= |taken| && p == if j == 0 then |memb| else taken[j - 1]
    requires k < |memb| && k !in taken[..j] && Needed(expl, memb, taken[..j], k)
    requires forall i | 0 <= i < |memb| && i !in taken[..j] && Needed(expl, memb, taken[..j], i) ::
      if k > p then i < p || i >= k else k <= i < p
    ensures j < |taken| && taken[j] == k
  {
    assert p == Latest(memb, taken[..j]);
    forall i | 0 <= i < |memb| && i !in taken[..j] && Between(p, i, k)
      ensures !Needed(expl, memb, taken[..j], i)
    {
    }
    FirstTaken(expl, memb, incl, taken, j, k);
  }

  /** `taken` goes on where `first` says, and ends where it says nothing. */
  ghost predicate Follows(first: (seq<nat>, nat) -> bool, taken: seq<nat>) {
    forall j, k | 0 <= j <= |taken| :: first(taken[..j], k) <==> j < |taken| && taken[j] == k
  }

  lemma {:induction false} SameWay(first: (seq<nat>, nat) -> bool, xs: seq<nat>, ys: seq<nat>, j: nat)
    requires Follows(first, xs) && Follows(first, ys) && j <= |xs|
    ensures j <= |ys| && xs[..j] == ys[..j]
    decreases j
  {
    if j > 0 {
      SameWay(first, xs, ys, j - 1);
      assert first(xs[..j - 1], xs[j - 1]);
      assert first(ys[..j - 1], xs[j - 1]);
    }
  }

  function Turns(expl: seq<Object>, memb: seq<Object>): (seq<nat>, nat) -> bool {
    (ts: seq<nat>, k: nat) => Valid(memb, ts) && First(expl, memb, ts, k)
  }

  lemma SelectionFollows(expl: seq<Object>, memb: seq<Object>, incl: seq<bool>, taken: seq<nat>)
    requires Selected(expl, memb, incl, taken)
    ensures Follows(Turns(expl, memb), taken)
  {
    forall j: nat, k: nat | j <= |taken|
      ensures Turns(expl, memb)(taken[..j], k) <==> j < |taken| && taken[j] == k
    {
      FirstTaken(expl, memb, incl, taken, j, k);
    }
  }

  lemma SameEnd(first: (seq<nat>, nat) -> bool, xs: seq<nat>, ys: seq<nat>)
    requires Follows(first, xs) && Follows(first, ys)
    ensures xs == ys
  {
    SameWay(first, xs, ys, |xs|);
    SameWay(first, ys, xs, |ys|);
    assert xs[..|xs|] == xs && ys[..|ys|] == ys;
  }

  lemma SameMarks(memb: seq<Object>, incl: seq<bool>, incl': seq<bool>, taken: seq<nat>)
    requires Marks(memb, incl, taken) && Marks(memb, incl', taken)
    ensures incl == incl'
  {
  }

  /** There is one selection. */
  lemma SelectionIsUnique(expl: seq<Object>, memb: seq<Object>, incl: seq<bool>, taken: seq<nat>,
      incl': seq<bool>, taken': seq<nat>)
    requires Selected(expl, memb, incl, taken) && Selected(expl, memb, incl', taken')
    ensures incl == incl' && taken == taken'
  {
    SelectionFollows(expl, memb, incl, taken);
    SelectionFollows(expl, memb, incl', taken');
    SameEnd(Turns(expl, memb), taken, taken');
    SameMarks(memb, incl, incl', taken);
  }

  // --- what the selection promises ----------------------------------------------------------------------

  /** Closure: a name that the selection references and some member provides is defined in it. */
  lemma Closure(expl: seq<Object>, memb: seq<Object>, taken: seq<nat>, k: nat, name: string)
    requires Valid(memb, taken) && (forall j | 0 <= j < |memb| && j !in taken :: !Needed(expl, memb, taken, j))
    requires Referenced(expl, memb, taken, name) && k < |memb| && Provides(memb[k], name)
    ensures Defined(expl, memb, taken, name)
  {
    var i :| 0 <= i < |memb[k].syms| && Exported(memb[k].syms[i]) && memb[k].syms[i].name == name;
    if k in taken {
      var j :| 0 <= j < |taken| && taken[j] == k;
      assert DefinedHere(memb[k].syms[i], name);
    } else {
      assert !NeededFor(expl, memb, taken, memb[k].syms[i]);
    }
  }

  /** `a` mentions a name that `b` provides. */
  predicate Calls(a: Object, b: Object) { exists r :: r in a.relocs && Provides(b, r.sym) }

  /** A chain of references from an explicit object to member `k`. */
  predicate Chain(expl: seq<Object>, memb: seq<Object>, path: seq<nat>, k: nat) {
    && |path| > 0 && Valid(memb, path) && path[|path| - 1] == k
    && (exists e :: 0 <= e < |expl| && Calls(expl[e], memb[path[0]]))
    && forall i | 0 < i < |path| :: Calls(memb[path[i - 1]], memb[path[i]])
  }

  lemma LongerChain(expl: seq<Object>, memb: seq<Object>, path: seq<nat>, i: nat, k: nat)
    requires Chain(expl, memb, path, i) && k < |memb| && Calls(memb[i], memb[k])
    ensures Chain(expl, memb, path + [k], k)
  {
    var longer := path + [k];
    assert longer[0] == path[0];
    forall x | 0 < x < |longer|
      ensures Calls(memb[longer[x - 1]], memb[longer[x]])
    {
      assert longer[x - 1] == path[x - 1];
      assert longer[x] == if x < |path| then path[x] else k;
    }
  }

  /** What made a member needed: an explicit object, or one taken before it, mentions what it provides. */
  lemma NeededBy(expl: seq<Object>, memb: seq<Object>, taken: seq<nat>, k: nat)
    requires Valid(memb, taken) && k < |memb| && Needed(expl, memb, taken, k)
    ensures (exists e :: 0 <= e < |expl| && Calls(expl[e], memb[k]))
      || exists i :: 0 <= i < |taken| && Calls(memb[taken[i]], memb[k])
  {
    var s :| 0 <= s < |memb[k].syms| && NeededFor(expl, memb, taken, memb[k].syms[s]);
    var name := memb[k].syms[s].name;
    assert Provides(memb[k], name);
    if e :| 0 <= e < |expl| && References(expl[e], name) {
      assert Calls(expl[e], memb[k]);
    } else {
      var i :| 0 <= i < |taken| && References(memb[taken[i]], name);
      assert Calls(memb[taken[i]], memb[k]);
    }
  }

  /** Nothing is linked in that the program cannot reach. */
  lemma {:induction false} Reachable(expl: seq<Object>, memb: seq<Object>, taken: seq<nat>, j: nat)
    returns (path: seq<nat>)
    requires Justified(expl, memb, taken) && j < |taken|
    ensures Chain(expl, memb, path, taken[j]) && forall m | m in path :: m in taken
    decreases j
  {
    NeededBy(expl, memb, taken[..j], taken[j]);
    if e :| 0 <= e < |expl| && Calls(expl[e], memb[taken[j]]) {
      path := [taken[j]];
    } else {
      var i :| 0 <= i < j && Calls(memb[taken[..j][i]], memb[taken[j]]);
      path := Reachable(expl, memb, taken, i);
      LongerChain(expl, memb, path, taken[i], taken[j]);
      path := path + [taken[j]];
    }
  }

  /** A name resolves at link time in its own object's definitions or in anybody's globals, and in
      nothing else. */
  lemma ResolvesByOwnOrGlobal(objs: seq<Object>, m: nat, name: string)
    requires m < |objs|
    ensures Meaning(objs, m, name).Some? <==>
      Defines(objs[m], name) || exists n :: 0 <= n < |objs| && Provides(objs[n], name)
  {
    if n :| 0 <= n < |objs| && Provides(objs[n], name) {
      var j :| 0 <= j < |objs[n].syms| && Exported(objs[n].syms[j]) && objs[n].syms[j].name == name;
      ExportListed(objs, n, j);
    }
    if Own(m, objs[m].syms, name).Some? {
      var d := Own(m, objs[m].syms, name).value;
      var i :| 0 <= i < |objs[m].syms| && objs[m].syms[i] == d.sym;
    } else if GlobalNamed(AllExports(objs), name).Some? {
      var d := GlobalNamed(AllExports(objs), name).value;
      var i :| 0 <= i < |objs[d.m].syms| && objs[d.m].syms[i] == d.sym;
      assert Provides(objs[d.m], name);
    }
  }

  /** The members that are linked, in the order of the archives. */
  function Included(memb: seq<Object>, incl: seq<bool>): (objs: seq<Object>)
    requires |incl| == |memb|
  {
    if memb == [] then [] else (if incl[0] then [memb[0]] else []) + Included(memb[1..], incl[1..])
  }

  lemma {:induction false} IncludedAreMarked(memb: seq<Object>, incl: seq<bool>, o: Object)
    requires |incl| == |memb|
    ensures o in Included(memb, incl) <==> exists k :: 0 <= k < |memb| && incl[k] && memb[k] == o
    decreases |memb|
  {
    if memb != [] {
      IncludedAreMarked(memb[1..], incl[1..], o);
      if k :| 0 <= k < |memb| && incl[k] && memb[k] == o {
        assert k > 0 ==> incl[1..][k - 1] && memb[1..][k - 1] == o;
      }
      if k :| 0 <= k < |memb[1..]| && incl[1..][k] && memb[1..][k] == o {
        assert incl[k + 1] && memb[k + 1] == o;
      }
    }
  }

  function Marked(incl: seq<bool>): nat {
    if incl == [] then 0 else (if incl[0] then 1 else 0) + Marked(incl[1..])
  }

  /** In the order of the archives: a member stands behind as many as are linked before it. */
  lemma {:induction false} LinkedInOrder(memb: seq<Object>, incl: seq<bool>, k: nat)
    requires |incl| == |memb| && k < |memb| && incl[k]
    ensures Marked(incl[..k]) < |Included(memb, incl)| == Marked(incl)
    ensures Included(memb, incl)[Marked(incl[..k])] == memb[k]
    decreases |memb|
  {
    if k > 0 {
      assert incl[..k][1..] == incl[1..][..k - 1];
      LinkedInOrder(memb[1..], incl[1..], k - 1);
    } else {
      LinkedCount(memb[1..], incl[1..]);
    }
  }

  lemma {:induction false} LinkedCount(memb: seq<Object>, incl: seq<bool>)
    requires |incl| == |memb|
    ensures |Included(memb, incl)| == Marked(incl)
    decreases |memb|
  {
    if memb != [] {
      LinkedCount(memb[1..], incl[1..]);
    }
  }

  /** What is linked is what was selected. */
  lemma LinkedAreSelected(expl: seq<Object>, memb: seq<Object>, incl: seq<bool>, taken: seq<nat>, o: Object)
    requires Marks(memb, incl, taken)
    ensures o in expl + Included(memb, incl) <==> o in expl || exists j :: 0 <= j < |taken| && memb[taken[j]] == o
  {
    IncludedAreMarked(memb, incl, o);
    if k :| 0 <= k < |memb| && incl[k] && memb[k] == o {
      var j :| 0 <= j < |taken| && taken[j] == k;
      assert memb[taken[j]] == o;
    }
    if j :| 0 <= j < |taken| && memb[taken[j]] == o {
      assert taken[j] in taken && incl[taken[j]];
    }
  }

  /** Selection counts a definition that is local to another object as a definition, the link does not.
      So a name the archive provides resolves in the linked list exactly when the object that mentions
      it defines it, or some definition of it in the list is global. */
  lemma SelectedNameResolves(expl: seq<Object>, memb: seq<Object>, incl: seq<bool>, taken: seq<nat>, m: nat, k: nat,
      name: string)
    requires Selected(expl, memb, incl, taken)
    requires m < |expl + Included(memb, incl)| && References((expl + Included(memb, incl))[m], name)
    requires k < |memb| && Provides(memb[k], name)
    ensures var objs := expl + Included(memb, incl);
      && (exists n :: 0 <= n < |objs| && Defines(objs[n], name))
      && (Meaning(objs, m, name).Some? <==>
            Defines(objs[m], name) || exists n :: 0 <= n < |objs| && Provides(objs[n], name))
  {
    var objs := expl + Included(memb, incl);
    LinkedAreSelected(expl, memb, incl, taken, objs[m]);
    assert objs[m] in objs;
    assert Referenced(expl, memb, taken, name) by {
      if objs[m] in expl {
        var e :| 0 <= e < |expl| && expl[e] == objs[m];
        assert References(expl[e], name);
      } else {
        var j :| 0 <= j < |taken| && memb[taken[j]] == objs[m];
        assert References(memb[taken[j]], name);
      }
    }
    Closure(expl, memb, taken, k, name);
    var o: Object :| (o in expl || exists j :: 0 <= j < |taken| && memb[taken[j]] == o) && Defines(o, name);
    LinkedAreSelected(expl, memb, incl, taken, o);
    var n :| 0 <= n < |objs| && objs[n] == o;
    ResolvesByOwnOrGlobal(objs, m, name);
  }

  /** Before the link: a name some member provides resolves if no other object on the command line or
      in the archives defines it without exporting it. */
  lemma ProvidedNameResolves(expl: seq<Object>, memb: seq<Object>, incl: seq<bool>, taken: seq<nat>, m: nat, k: nat,
      name: string)
    requires Selected(expl, memb, incl, taken)
    requires m < |expl + Included(memb, incl)| && References((expl + Included(memb, incl))[m], name)
    requires k < |memb| && Provides(memb[k], name)
    requires forall o: Object | (o in expl || o in memb) && Defines(o, name) ::
      Provides(o, name) || o == (expl + Included(memb, incl))[m]
    ensures Meaning(expl + Included(memb, incl), m, name).Some?
  {
    var objs := expl + Included(memb, incl);
    SelectedNameResolves(expl, memb, incl, taken, m, k, name);
    var n :| 0 <= n < |objs| && Defines(objs[n], name);
    assert objs[n] in objs;
    LinkedAreSelected(expl, memb, incl, taken, objs[n]);
  }

  /** The two do differ: a local definition keeps a member out, and the link fails although the
      archive has the name. */
  lemma LocalDefinitionHides()
    ensures exists caller: Object, other: Object, lib: Object, name: string ::
      && WellFormed(caller) && WellFormed(other) && WellFormed(lib)
      && References(caller, name) && Provides(lib, name)
      && !Needed([caller, other], [lib], [], 0)
      && Meaning([caller, other], 0, name).None?
  {
    var name := "f";
    var text := [Instr(J, 0, 0, 0, 0, 0, 0)];
    var caller := Object(text, [], 0, [], [Reloc(RCode, 0, name, 0)]);
    var other := Object(text, [], 0, [Symbol(name, Text, 0, 0, Local, 1)], []);
    var lib := Object(text, [], 0, [Symbol(name, Text, 0, 0, Global, 1)], []);
    assert WellFormed(caller) && WellFormed(other) && WellFormed(lib);
    assert References(caller, name) by { assert caller.relocs[0].sym == name; }
    assert Provides(lib, name) by { assert Exported(lib.syms[0]); }
    assert Defined([caller, other], [lib], [], name) by {
      assert DefinedHere(other.syms[0], name);
      assert Defines([caller, other][1], name);
    }
    assert !Needed([caller, other], [lib], [], 0) by {
      assert !NeededFor([caller, other], [lib], [], lib.syms[0]);
    }
    ResolvesByOwnOrGlobal([caller, other], 0, name);
  }
}
