/** The locked-key lifecycle (`src/lib.rs`, module `locked`) as a step machine. Any number of
    keys are created and dropped in any interleaving of their system calls and page writes,
    and the kernel may refuse any call. */
module Locked {
  import opened Words
  import opened ChaCha

  type Page = nat
  type Id = nat

  /** How far one `LockedKey` has come. `new` runs Fresh, MLocked, Excluded, Live; a refused
      `madvise` goes to Backout. `drop` runs Wiped and then, like Backout, the release. */
  datatype Phase =
    | Fresh      // a zeroed page of its own
    | MLocked    // mlock granted
    | Excluded   // and left out of core dumps
    | Live       // the key is in the page
    | Backout    // madvise refused: release the lock, no key was written
    | Wiped      // dropping: the page was zeroed, still locked and excluded
    | Redump     // munlock granted: put the page back in core dumps
    | Leaking    // dropping: munlock refused, the advice is not undone
    | Doomed     // to be freed

  datatype Owner = Owner(page: Page, phase: Phase)

  /** Who owns which page, the kernel's flags, and the pages that hold key bytes. */
  datatype World = World(owners: map<Id, Owner>, locked: set<Page>, noDump: set<Page>, secrets: map<Page, Key>)

  datatype Step =
    | Alloc(id: Id, page: Page)
    | Mlock(id: Id, granted: bool)
    | Exclude(id: Id, granted: bool, flagged: bool)   // madvise(DONTDUMP); a refusal may still flag
    | CopyKey(id: Id, key: Key)
    | Wipe(id: Id)
    | Munlock(id: Id, granted: bool)
    | Include(id: Id, granted: bool)                  // madvise(DODUMP)
    | Free(id: Id)

  const EMPTY: World := World(map[], {}, {}, map[])

  predicate InPhase(w: World, id: Id, phase: Phase)
  {
    id in w.owners && w.owners[id].phase == phase
  }

  predicate Enabled(w: World, s: Step)
  {
    match s
    case Alloc(id, page) => id !in w.owners && forall i :: i in w.owners ==> w.owners[i].page != page
    case Mlock(id, _) => InPhase(w, id, Fresh)
    case Exclude(id, _, _) => InPhase(w, id, MLocked)
    case CopyKey(id, _) => InPhase(w, id, Excluded)
    case Wipe(id) => InPhase(w, id, Live)
    case Munlock(id, _) => InPhase(w, id, Backout) || InPhase(w, id, Wiped)
    case Include(id, _) => InPhase(w, id, Redump)
    case Free(id) => InPhase(w, id, Doomed) || InPhase(w, id, Leaking)
  }

  function Become(w: World, id: Id, phase: Phase): World
    requires id in w.owners
  {
    w.(owners := w.owners[id := w.owners[id].(phase := phase)])
  }

  function Apply(w: World, s: Step): World
    requires Enabled(w, s)
  {
    match s
    case Alloc(id, page) => w.(owners := w.owners[id := Owner(page, Fresh)])
    case Mlock(id, granted) =>
      if granted then Become(w, id, MLocked).(locked := w.locked + {w.owners[id].page})
      else Become(w, id, Doomed)
    case Exclude(id, granted, flagged) =>
      var noDump := if granted || flagged then w.noDump + {w.owners[id].page} else w.noDump;
      Become(w, id, if granted then Excluded else Backout).(noDump := noDump)
    case CopyKey(id, key) => Become(w, id, Live).(secrets := w.secrets[w.owners[id].page := key])
    case Wipe(id) => Become(w, id, Wiped).(secrets := w.secrets - {w.owners[id].page})
    case Munlock(id, granted) =>
      if granted then Become(w, id, Redump).(locked := w.locked - {w.owners[id].page})
      else Become(w, id, if w.owners[id].phase.Wiped? then Leaking else Doomed)
    case Include(id, granted) =>
      Become(w, id, Doomed).(noDump := if granted then w.noDump - {w.owners[id].page} else w.noDump)
    case Free(id) => w.(owners := w.owners - {id})
  }

  /** Replaying a run; a run is allowed only if every step in it is. */
  predicate Allowed(w: World, run: seq<Step>)
    decreases |run|
  {
    |run| == 0 || (Enabled(w, run[0]) && Allowed(Apply(w, run[0]), run[1..]))
  }

  function After(w: World, run: seq<Step>): World
    requires Allowed(w, run)
    decreases |run|
  {
    if |run| == 0 then w else After(Apply(w, run[0]), run[1..])
  }

  // ---- The invariant ----------------------------------------------------------------

  ghost predicate OwnPages(w: World)
  {
    forall i, j :: i in w.owners && j in w.owners && i != j ==> w.owners[i].page != w.owners[j].page
  }

  /** The kernel's flags that each phase relies on. */
  predicate FlagsFit(w: World, o: Owner)
  {
    match o.phase
    case MLocked => o.page in w.locked
    case Backout => o.page in w.locked
    case Excluded | Live | Wiped | Leaking => o.page in w.locked && o.page in w.noDump
    case Redump => o.page !in w.locked
    case _ => true
  }

  ghost predicate Inv(w: World)
  {
    && OwnPages(w)
    && (forall i :: i in w.owners ==> FlagsFit(w, w.owners[i]))
    && (forall i :: i in w.owners ==> (w.owners[i].page in w.secrets <==> w.owners[i].phase.Live?))
    && (forall p :: p in w.secrets ==> exists i :: i in w.owners && w.owners[i] == Owner(p, Live))
  }

  /** Pages other than the stepping key's keep their flags and their contents. */
  predicate SamePage(a: World, b: World, p: Page)
  {
    && (p in a.locked <==> p in b.locked)
    && (p in a.noDump <==> p in b.noDump)
    && (p in a.secrets <==> p in b.secrets)
    && (p in a.secrets ==> a.secrets[p] == b.secrets[p])
  }

  function PageOf(w: World, s: Step): Page
    requires Enabled(w, s)
  {
    match s
    case Alloc(_, page) => page
    case _ => w.owners[s.id].page
  }

  /** One key's step never changes the page or the progress of another. */
  lemma StepIsLocal(w: World, s: Step)
    requires Enabled(w, s)
    ensures forall p :: p != PageOf(w, s) ==> SamePage(w, Apply(w, s), p)
    ensures forall i :: i != s.id ==> (i in w.owners <==> i in Apply(w, s).owners)
    ensures forall i :: i != s.id && i in w.owners ==> Apply(w, s).owners[i] == w.owners[i]
  {
  }

  /** The stepping key's own page after its step. */
  lemma OwnPageFits(w: World, s: Step)
    requires Inv(w) && Enabled(w, s)
    ensures var v := Apply(w, s);
            s.id in v.owners ==> && FlagsFit(v, v.owners[s.id])
                                 && (v.owners[s.id].page in v.secrets <==> v.owners[s.id].phase.Live?)
  {
    if s.Alloc? {
      FreshPageHasNoSecret(w, s.page);
    } else {
      assert FlagsFit(w, w.owners[s.id]);
    }
  }

  lemma StepKeepsInv(w: World, s: Step)
    requires Inv(w) && Enabled(w, s)
    ensures Inv(Apply(w, s))
  {
    var v := Apply(w, s);
    StepIsLocal(w, s);
    OwnPageFits(w, s);
    forall i | i in v.owners
      ensures FlagsFit(v, v.owners[i]) && (v.owners[i].page in v.secrets <==> v.owners[i].phase.Live?)
    {
      if i != s.id {
        assert v.owners[i] == w.owners[i] && w.owners[i].page != PageOf(w, s);
        assert SamePage(w, v, w.owners[i].page) && FlagsFit(w, w.owners[i]);
      }
    }
    forall p | p in v.secrets ensures exists i :: i in v.owners && v.owners[i] == Owner(p, Live) {
      if p == PageOf(w, s) {
        SecretIsOwn(w, s);
      } else {
        assert SamePage(w, v, p);
        var i :| i in w.owners && w.owners[i] == Owner(p, Live);
        assert v.owners[i] == Owner(p, Live);
      }
    }
  }

  lemma FreshPageHasNoSecret(w: World, page: Page)
    requires Inv(w) && forall i :: i in w.owners ==> w.owners[i].page != page
    ensures page !in w.secrets
  {
  }

  lemma SecretIsOwn(w: World, s: Step)
    requires Inv(w) && Enabled(w, s) && PageOf(w, s) in Apply(w, s).secrets
    ensures s.CopyKey?
  {
    if s.Alloc? {
      FreshPageHasNoSecret(w, s.page);
    }
  }

  // ---- Safety over whole runs --------------------------------------------------------

  lemma {:induction false} RunKeepsInv(w: World, run: seq<Step>)
    requires Inv(w) && Allowed(w, run)
    ensures Inv(After(w, run))
    decreases |run|
  {
    if |run| != 0 {
      StepKeepsInv(w, run[0]);
      RunKeepsInv(Apply(w, run[0]), run[1..]);
    }
  }

  /** After any interleaving of steps and any refusals: every page that holds key bytes is locked
      and left out of core dumps, and belongs to a live key; and no page that is being released
      after holding a key is locked and dumpable at the same time. */
  lemma SecretsAlwaysProtected(run: seq<Step>)
    requires Allowed(EMPTY, run)
    ensures var w := After(EMPTY, run);
            && (forall p :: p in w.secrets ==>
                  && p in w.locked && p in w.noDump
                  && exists i :: i in w.owners && w.owners[i] == Owner(p, Live))
            && (forall i :: i in w.owners && w.owners[i].phase in {Wiped, Redump, Leaking} ==>
                  w.owners[i].page in w.locked ==> w.owners[i].page in w.noDump)
  {
    RunKeepsInv(EMPTY, run);
    var w := After(EMPTY, run);
    forall i | i in w.owners && w.owners[i].phase in {Wiped, Redump, Leaking}
      ensures w.owners[i].page in w.locked ==> w.owners[i].page in w.noDump
    {
      assert FlagsFit(w, w.owners[i]);
    }
    forall p | p in w.secrets ensures p in w.locked && p in w.noDump {
      var i :| i in w.owners && w.owners[i] == Owner(p, Live);
      assert FlagsFit(w, w.owners[i]);
    }
  }

  /** The steps of a run that are not this key's. */
  predicate Spares(run: seq<Step>, id: Id)
  {
    forall k :: 0 <= k < |run| ==> run[k].id != id
  }

  lemma OtherPage(w: World, s: Step, id: Id)
    requires Inv(w) && Enabled(w, s) && id in w.owners && s.id != id
    ensures PageOf(w, s) != w.owners[id].page
  {
  }

  /** Whatever other keys do, a live key stays live, in the same page, with the same bytes,
      locked and excluded. */
  lemma {:induction false} OthersCannotDisturb(w: World, run: seq<Step>, id: Id)
    requires Inv(w) && Allowed(w, run) && Spares(run, id) && InPhase(w, id, Live)
    ensures var v := After(w, run);
            && id in v.owners && v.owners[id] == w.owners[id]
            && SamePage(w, v, w.owners[id].page)
    decreases |run|
  {
    hide Apply, Enabled, PageOf;
    if |run| != 0 {
      var s := run[0];
      StepIsLocal(w, s);
      StepKeepsInv(w, s);
      OtherPage(w, s, id);
      assert SamePage(w, Apply(w, s), w.owners[id].page) && InPhase(Apply(w, s), id, Live);
      assert Spares(run[1..], id);
      OthersCannotDisturb(Apply(w, s), run[1..], id);
    }
  }

  /** The whole of one drop, with the kernel's answers. */
  function Drop(id: Id, unlocked: bool, included: bool): seq<Step>
  {
    if unlocked then [Wipe(id), Munlock(id, true), Include(id, included), Free(id)]
    else [Wipe(id), Munlock(id, false), Free(id)]
  }

  /** A drop always completes and leaves no key bytes. If `munlock` is refused the page stays
      locked and excluded; if every call is granted the page is as any other. */
  lemma DropOutcome(w: World, id: Id, unlocked: bool, included: bool)
    requires Inv(w) && InPhase(w, id, Live)
    ensures Allowed(w, Drop(id, unlocked, included))
    ensures var v, p := After(w, Drop(id, unlocked, included)), w.owners[id].page;
            && p !in v.secrets && id !in v.owners
            && (p in v.locked <==> !unlocked)
            && (p in v.noDump <==> !unlocked || !included)
  {
    hide After, Allowed, Apply, Enabled, Inv;
    assert Inv(w) && InPhase(w, id, Live);
    if unlocked {
      DropGranted(w, id, included);
    } else {
      DropRefused(w, id);
    }
  }

  /** What each step of a drop does to the key's own page. */
  lemma ReleaseStep(w: World, s: Step)
    requires Enabled(w, s) && (s.Wipe? || s.Munlock? || s.Include? || s.Free?)
    ensures var v, p, o := Apply(w, s), w.owners[s.id].page, w.owners[s.id].phase;
            match s
            case Wipe(id) => && id in v.owners && v.owners[id] == Owner(p, Wiped) && p !in v.secrets
                             && v.locked == w.locked && v.noDump == w.noDump
            case Munlock(id, granted) => && id in v.owners && v.secrets == w.secrets && v.noDump == w.noDump
                                         && (granted ==> v.owners[id] == Owner(p, Redump) && p !in v.locked)
                                         && (!granted ==> v.locked == w.locked)
                                         && (!granted && o.Wiped? ==> v.owners[id] == Owner(p, Leaking))
            case Include(id, granted) => && id in v.owners && v.owners[id] == Owner(p, Doomed)
                                         && v.secrets == w.secrets && v.locked == w.locked
                                         && (p in v.noDump <==> p in w.noDump && !granted)
            case Free(id) => id !in v.owners && v == w.(owners := v.owners)
            case _ => true
  {
  }

  lemma DropRefused(w: World, id: Id)
    requires Inv(w) && InPhase(w, id, Live)
    ensures Allowed(w, [Wipe(id), Munlock(id, false), Free(id)])
    ensures var v, p := After(w, [Wipe(id), Munlock(id, false), Free(id)]), w.owners[id].page;
            p !in v.secrets && id !in v.owners && p in v.locked && p in v.noDump
  {
    hide After, Allowed, Apply;
    assert FlagsFit(w, w.owners[id]);
    ReleaseStep(w, Wipe(id));
    var w1 := Apply(w, Wipe(id));
    ReleaseStep(w1, Munlock(id, false));
    var w2 := Apply(w1, Munlock(id, false));
    ReleaseStep(w2, Free(id));
    RunOfThree(w, Wipe(id), Munlock(id, false), Free(id));
  }

  lemma DropGranted(w: World, id: Id, included: bool)
    requires Inv(w) && InPhase(w, id, Live)
    ensures Allowed(w, [Wipe(id), Munlock(id, true), Include(id, included), Free(id)])
    ensures var v, p := After(w, [Wipe(id), Munlock(id, true), Include(id, included), Free(id)]), w.owners[id].page;
            p !in v.secrets && id !in v.owners && p !in v.locked && (p in v.noDump <==> !included)
  {
    hide After, Allowed, Apply;
    assert FlagsFit(w, w.owners[id]);
    ReleaseStep(w, Wipe(id));
    var w1 := Apply(w, Wipe(id));
    ReleaseStep(w1, Munlock(id, true));
    var w2 := Apply(w1, Munlock(id, true));
    ReleaseStep(w2, Include(id, included));
    var w3 := Apply(w2, Include(id, included));
    ReleaseStep(w3, Free(id));
    RunOfFour(w, Wipe(id), Munlock(id, true), Include(id, included), Free(id));
  }

  lemma RunOfThree(w: World, a: Step, b: Step, c: Step)
    requires Enabled(w, a) && Enabled(Apply(w, a), b) && Enabled(Apply(Apply(w, a), b), c)
    ensures Allowed(w, [a, b, c]) && After(w, [a, b, c]) == Apply(Apply(Apply(w, a), b), c)
  {
    hide Apply, Enabled;
    var w1 := Apply(w, a);
    var w2 := Apply(w1, b);
    RunNothing(Apply(w2, c));
    RunStep(w2, c, []);
    RunStep(w1, b, [c]);
    RunStep(w, a, [b, c]);
    assert [a] + [b, c] == [a, b, c] && [b] + [c] == [b, c] && [c] + [] == [c];
  }

  lemma RunOfFour(w: World, a: Step, b: Step, c: Step, d: Step)
    requires Enabled(w, a) && Enabled(Apply(w, a), b) && Enabled(Apply(Apply(w, a), b), c)
    requires Enabled(Apply(Apply(Apply(w, a), b), c), d)
    ensures Allowed(w, [a, b, c, d]) && After(w, [a, b, c, d]) == Apply(Apply(Apply(Apply(w, a), b), c), d)
  {
    hide Apply, Enabled;
    RunOfThree(Apply(w, a), b, c, d);
    RunStep(w, a, [b, c, d]);
    assert [a] + [b, c, d] == [a, b, c, d];
  }

  lemma RunNothing(w: World)
    ensures Allowed(w, []) && After(w, []) == w
  {
  }

  lemma RunStep(w: World, s: Step, rest: seq<Step>)
    requires Enabled(w, s)
    ensures Allowed(w, [s] + rest) <==> Allowed(Apply(w, s), rest)
    ensures Allowed(w, [s] + rest) ==> After(w, [s] + rest) == After(Apply(w, s), rest)
  {
    hide Apply, Enabled;
    assert ([s] + rest)[1..] == rest;
  }

  /** A leaked exclusion lasts: a freed page keeps its flags until it is allocated again. */
  lemma {:induction false} LeakedPageStays(w: World, run: seq<Step>, p: Page)
    requires Allowed(w, run) && forall i :: i in w.owners ==> w.owners[i].page != p
    requires forall k :: 0 <= k < |run| && run[k].Alloc? ==> run[k].page != p
    ensures SamePage(w, After(w, run), p)
    decreases |run|
  {
    if |run| != 0 {
      StepIsLocal(w, run[0]);
      var v := Apply(w, run[0]);
      assert forall k :: 0 <= k < |run[1..]| ==> run[1..][k] == run[k + 1];
      LeakedPageStays(v, run[1..], p);
    }
  }

  // ---- When a page stays locked and dumpable ----------------------------------------------

  /** Locked in memory and still in core dumps. */
  predicate Exposed(w: World, p: Page)
  {
    p in w.locked && p !in w.noDump
  }

  /** `munlock` is refused while a failed attempt backs out, and the refused `madvise` left the
      page in core dumps. */
  predicate Exposing(w: World, s: Step)
  {
    s.Munlock? && !s.granted && InPhase(w, s.id, Backout) && w.owners[s.id].page !in w.noDump
  }

  /** A page is locked and dumpable only on the way through `new`, never once its key is gone. */
  ghost predicate Covered(w: World)
  {
    forall p :: Exposed(w, p) ==>
      exists i :: i in w.owners && w.owners[i].page == p && w.owners[i].phase in {MLocked, Backout}
  }

  ghost predicate AlwaysCovered(w: World, run: seq<Step>)
    requires Allowed(w, run)
    decreases |run|
  {
    Covered(w) && (|run| == 0 || AlwaysCovered(Apply(w, run[0]), run[1..]))
  }

  predicate NeverExposes(w: World, run: seq<Step>)
    requires Allowed(w, run)
    decreases |run|
  {
    |run| == 0 || (!Exposing(w, run[0]) && NeverExposes(Apply(w, run[0]), run[1..]))
  }

  /** After a refused `munlock` the page is out of core dumps exactly when it was before, and a
      page that held a key always was. */
  lemma RefusedMunlock(w: World, id: Id)
    requires Inv(w) && Enabled(w, Munlock(id, false))
    ensures var v, p := Apply(w, Munlock(id, false)), w.owners[id].page;
            p in v.locked && (Exposed(v, p) <==> Exposing(w, Munlock(id, false)))
  {
    assert FlagsFit(w, w.owners[id]);
  }

  lemma StepExposes(w: World, s: Step)
    requires Inv(w) && Covered(w) && Enabled(w, s)
    ensures Covered(Apply(w, s)) <==> !Exposing(w, s)
  {
    var v := Apply(w, s);
    StepIsLocal(w, s);
    if Exposing(w, s) {
      RefusedMunlock(w, s.id);
    } else {
      forall p | Exposed(v, p)
        ensures exists i :: i in v.owners && v.owners[i].page == p && v.owners[i].phase in {MLocked, Backout}
      {
        if p == PageOf(w, s) {
          OwnPageCovered(w, s);
        } else {
          assert SamePage(w, v, p) && Exposed(w, p);
          var i :| i in w.owners && w.owners[i].page == p && w.owners[i].phase in {MLocked, Backout};
          assert v.owners[i] == w.owners[i];
        }
      }
    }
  }

  lemma OwnPageCovered(w: World, s: Step)
    requires Inv(w) && Covered(w) && Enabled(w, s) && !Exposing(w, s)
    requires Exposed(Apply(w, s), PageOf(w, s))
    ensures var v := Apply(w, s);
            s.id in v.owners && v.owners[s.id].page == PageOf(w, s) && v.owners[s.id].phase in {MLocked, Backout}
  {
    if s.Alloc? {
      assert Exposed(w, s.page);
    } else {
      ExposedPhase(w, s.id);
      assert FlagsFit(w, w.owners[s.id]);
    }
  }

  lemma ExposedPhase(w: World, id: Id)
    requires OwnPages(w) && Covered(w) && id in w.owners
    ensures Exposed(w, w.owners[id].page) ==> w.owners[id].phase in {MLocked, Backout}
  {
  }

  /** Through a whole run no page outside an attempt under way is locked and dumpable, if and only
      if no step of the run is exposing. */
  lemma {:induction false} CoveredUnlessExposed(w: World, run: seq<Step>)
    requires Inv(w) && Covered(w) && Allowed(w, run)
    ensures AlwaysCovered(w, run) <==> NeverExposes(w, run)
    decreases |run|
  {
    hide Inv, Covered, Exposing, Apply, Enabled;
    if |run| != 0 {
      StepKeepsInv(w, run[0]);
      StepExposes(w, run[0]);
      var v := Apply(w, run[0]);
      if Covered(v) {
        CoveredUnlessExposed(v, run[1..]);
      }
    }
  }

  /** The kernel grants the lock, refuses the exclusion without flagging the page, and refuses the
      unlock. */
  const EXPOSING_RUN: seq<Step> :=
    [Alloc(0, 0), Mlock(0, true), Exclude(0, false, false), Munlock(0, false), Free(0)]

  /** So a refused `munlock` does not always leave the range out of core dumps: this attempt ends
      with its page locked, dumpable and owned by no key. */
  lemma AttemptCanExpose()
    ensures Allowed(EMPTY, EXPOSING_RUN) && !NeverExposes(EMPTY, EXPOSING_RUN)
    ensures var w := After(EMPTY, EXPOSING_RUN);
            Exposed(w, 0) && !Covered(w) && w.owners == map[] && w.secrets == map[]
  {
    assert Exposed(After(EMPTY, EXPOSING_RUN), 0);
  }

  // ---- The pages a range is rounded to -------------------------------------------------

  function SaturatingAdd(a: nat, b: nat, max: nat): nat
  {
    if a + b <= max then a + b else max
  }

  /** The pages `first .. end` that `madvise` is given for a range, as page numbers. */
  function FirstPage(ptr: nat, ps: nat): nat
    requires ps > 0
  {
    DivShrinks(ptr, ps);
    ptr / ps
  }

  function EndPage(ptr: nat, len: nat, ps: nat, max: nat): nat
    requires ps > 0
  {
    var e := SaturatingAdd(SaturatingAdd(ptr, len, max), ps - 1, max);
    DivShrinks(e, ps);
    e / ps
  }

  predicate Touches(page: nat, ptr: nat, len: nat, ps: nat)
  {
    page * ps < ptr + len && ptr < page * ps + ps
  }

  lemma DivAtMost(x: nat, p: nat, q: nat)
    requires p > 0
    ensures x / p <= q <==> x < q * p + p
  {
    DivShrinks(x, p);
    var d := x / p;
    assert x == d * p + x % p;
    MulMonotone(d, d, p);
    MulMonotone(q, q, p);
    if d <= q {
      MulMonotone(d, q, p);
    } else {
      MulMonotone(q + 1, d, p);
    }
  }

  /** The rounding names exactly the pages the range touches, unless the range reaches into the
      last page of the address space, where the saturating end loses that page. */
  lemma RangeIsItsPages(ptr: nat, len: nat, ps: nat, pages: nat, max: nat)
    requires ps > 0 && len > 0 && max + 1 == pages * ps && ptr + len <= max + 1
    ensures (forall q: nat :: FirstPage(ptr, ps) <= q < EndPage(ptr, len, ps, max) <==> Touches(q, ptr, len, ps))
            <==> ptr + len + ps - 1 <= max
  {
    if ptr + len + ps - 1 <= max {
      forall q: nat
        ensures FirstPage(ptr, ps) <= q < EndPage(ptr, len, ps, max) <==> Touches(q, ptr, len, ps)
      {
        DivAtMost(ptr, ps, q);
        DivAtMost(ptr + len + ps - 1, ps, q);
      }
    } else {
      LastPageIsLost(ptr, len, ps, pages, max);
    }
  }

  lemma LastPageIsLost(ptr: nat, len: nat, ps: nat, pages: nat, max: nat)
    requires ps > 0 && len > 0 && max + 1 == pages * ps && ptr + len <= max + 1 < ptr + len + ps
    ensures pages > 0 && Touches(pages - 1, ptr, len, ps) && EndPage(ptr, len, ps, max) <= pages - 1
  {
    MulMonotone(pages - 1, pages, ps);
    if pages == 0 {
      MulMonotone(0, 0, ps);
    } else {
      DivAtMost(max, ps, pages - 1);
    }
  }
}
