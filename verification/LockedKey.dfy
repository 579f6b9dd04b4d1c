/** `LockedKey::new` and `LockedKey::drop` as the crate runs them, one call at a time, over the
    process state that the step machine describes. */
module LockedKey {
  import opened Words
  import opened ChaCha
  import opened Locked

  /** The kernel's answers to the calls of one `lock_range` or `unlock_range_with`. A refused
      exclusion may still have flagged the page. */
  datatype Answers = Answers(mlock: bool, exclude: bool, flagged: bool, munlock: bool, redump: bool)

  class Process {
    var world: World

    constructor ()
      ensures world == World(map[], {}, {}, map[]) && Inv(world)
    {
      world := EMPTY;
    }

    /** One system call or page write. */
    method Do(s: Step)
      requires Enabled(world, s) && Inv(world)
      modifies this
      ensures world == Apply(old(world), s) && Inv(world)
      ensures OthersKept(old(world), world, s.id)
    {
      StepKeepsInv(world, s);
      OneStep(world, s);
      world := Apply(world, s);
    }

    /** Lock the page, then exclude it from dumps; if the exclusion is refused, back out. */
    method LockRange(id: Id, answers: Answers) returns (ok: bool)
      requires Inv(world) && InPhase(world, id, Fresh)
      modifies this
      ensures Inv(world) && OthersKept(old(world), world, id) && id in world.owners
      ensures world.owners[id] == Owner(old(world).owners[id].page, if ok then Excluded else Doomed)
      ensures ok <==> answers.mlock && answers.exclude
      ensures !ok && answers.mlock && answers.munlock && answers.redump ==>
                world.owners[id].page !in world.locked && world.owners[id].page !in world.noDump
      ensures var p := world.owners[id].page;
              !ok ==> (Exposed(world, p) <==> StaysExposed(old(world), p, answers))
    {
      hide Inv;
      Do(Mlock(id, answers.mlock));
      if !answers.mlock {
        return false;
      }
      Do(Exclude(id, answers.exclude, answers.flagged));
      if !answers.exclude {
        BackOut(id, answers);
        return false;
      }
      return true;
    }

    /** After a refused exclusion: release the lock and, only if that is granted, undo the advice. */
    method BackOut(id: Id, answers: Answers)
      requires Inv(world) && InPhase(world, id, Backout)
      modifies this
      ensures Inv(world) && OthersKept(old(world), world, id) && id in world.owners
      ensures world.owners[id] == Owner(old(world).owners[id].page, Doomed)
      ensures answers.munlock && answers.redump ==>
                world.owners[id].page !in world.locked && world.owners[id].page !in world.noDump
      ensures answers.munlock ==> world.owners[id].page !in world.locked
      ensures !answers.munlock ==> world.locked == old(world).locked && world.noDump == old(world).noDump
    {
      hide Inv;
      Do(Munlock(id, answers.munlock));
      if answers.munlock {
        Do(Include(id, answers.redump));
      }
    }

    /** Release the lock, and only if that is granted put the page back in core dumps. */
    method UnlockRange(id: Id, answers: Answers)
      requires Inv(world) && InPhase(world, id, Wiped)
      modifies this
      ensures Inv(world) && OthersKept(old(world), world, id) && id in world.owners
      ensures world.owners[id] == Owner(old(world).owners[id].page, if answers.munlock then Doomed else Leaking)
      ensures var p := world.owners[id].page;
              && (p in world.locked <==> !answers.munlock)
              && (p in world.noDump <==> !answers.munlock || !answers.redump)
              && p !in world.secrets
    {
      hide Inv, Apply, FlagsFit;
      WipedIsProtected(world, id);
      ReleaseStep(world, Munlock(id, answers.munlock));
      Do(Munlock(id, answers.munlock));
      if answers.munlock {
        ReleaseStep(world, Include(id, answers.redump));
        Do(Include(id, answers.redump));
      }
    }

    /** A key is handed out exactly when the kernel locked its page and excluded it, and then its
        bytes are there, protected. Otherwise the attempt owns nothing and no key bytes were written. */
    method New(id: Id, page: Page, key: Key, answers: Answers) returns (ok: bool)
      requires Inv(world)
      requires id !in world.owners && forall i :: i in world.owners ==> world.owners[i].page != page
      modifies this
      ensures Inv(world) && OthersKept(old(world), world, id)
      ensures ok <==> answers.mlock && answers.exclude
      ensures ok ==> && id in world.owners && world.owners[id] == Owner(page, Live)
                     && page in world.secrets && world.secrets[page] == key
                     && page in world.locked && page in world.noDump
      ensures !ok ==> id !in world.owners && page !in world.secrets
      ensures !ok ==> (Exposed(world, page) <==> StaysExposed(old(world), page, answers))
    {
      hide Inv;
      Do(Alloc(id, page));
      ok := LockRange(id, answers);
      if !ok {
        DoomedIsEmpty(world, id);
        Do(Free(id));
        return;
      }
      Do(CopyKey(id, key));
      LiveIsProtected(world, id);
    }

    /** Wipe first, then unlock, then free. */
    method Drop(id: Id, answers: Answers)
      requires Inv(world) && InPhase(world, id, Live)
      modifies this
      ensures Inv(world) && OthersKept(old(world), world, id) && id !in world.owners
      ensures var p := old(world).owners[id].page;
              && p !in world.secrets
              && (p in world.locked <==> !answers.munlock)
              && (p in world.noDump <==> !answers.munlock || !answers.redump)
    {
      hide Inv;
      Do(Wipe(id));
      UnlockRange(id, answers);
      Do(Free(id));
    }
  }

  /** When a refused attempt leaves its page exposed: nothing had left it out of core dumps before, and
      either `mlock` was granted, `madvise` flagged nothing and `munlock` was refused, or `mlock` was
      refused on a page already locked. */
  predicate StaysExposed(before: World, page: Page, answers: Answers)
  {
    && page !in before.noDump
    && if answers.mlock then !answers.flagged && !answers.munlock else page in before.locked
  }

  /** Every other key keeps its page, its progress, its flags and its bytes. */
  ghost predicate OthersKept(a: World, b: World, id: Id)
  {
    forall i :: i != id && i in a.owners ==>
      i in b.owners && b.owners[i] == a.owners[i] && SamePage(a, b, a.owners[i].page)
  }

  lemma OneStep(w: World, s: Step)
    requires Inv(w) && Enabled(w, s)
    ensures OthersKept(w, Apply(w, s), s.id)
  {
    StepIsLocal(w, s);
    forall i | i != s.id && i in w.owners ensures SamePage(w, Apply(w, s), w.owners[i].page) {
      OtherPage(w, s, i);
    }
  }

  lemma DoomedIsEmpty(w: World, id: Id)
    requires Inv(w) && InPhase(w, id, Doomed)
    ensures w.owners[id].page !in w.secrets
  {
  }

  lemma WipedIsProtected(w: World, id: Id)
    requires Inv(w) && InPhase(w, id, Wiped)
    ensures w.owners[id].page in w.locked && w.owners[id].page in w.noDump && w.owners[id].page !in w.secrets
  {
    assert FlagsFit(w, w.owners[id]);
  }

  lemma LiveIsProtected(w: World, id: Id)
    requires Inv(w) && InPhase(w, id, Live)
    ensures w.owners[id].page in w.locked && w.owners[id].page in w.noDump
  {
    assert FlagsFit(w, w.owners[id]);
  }
}
