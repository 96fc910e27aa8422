/**
 `ChainIndexer`: sections of the canonical chain are processed in the background
 without holding the lock, while notices of new heads and reorganisations arrive.
 */
module ChainIndexers {
  import opened Headers
  import opened HeaderQueries
  import opened Transactions

  function HeadOf(heads: map<nat, Hash>, section: nat): Hash {
    if section in heads then heads[section] else ZeroHash
  }

  /** Walking `size` parents from the head of a section past the checkpoint reaches the head of the section before. */
  ghost predicate HeadLinked(heads: map<nat, Hash>, stored: nat, checkpoint: nat, size: nat, i: nat) {
    i in heads ==>
      && i < stored && heads[i].HashOf?
      && (i >= checkpoint && i > 0 ==> i - 1 in heads && Ancestor(heads[i], size) == heads[i - 1])
      && (i >= checkpoint && i == 0 ==> Ancestor(heads[0], size) == ZeroHash)
  }

  /** Section heads exist only below `stored`, and those past the checkpoint form one parent-linked chain. */
  ghost predicate HeadsOk(heads: map<nat, Hash>, stored: nat, checkpoint: nat, size: nat) {
    && (forall i: nat :: HeadLinked(heads, stored, checkpoint, size, i))
    && (stored > 0 ==> stored - 1 in heads)
  }

  /** The heads of the sections above `section` and below `limit` lead back to one another. */
  ghost predicate LinkedAbove(heads: map<nat, Hash>, section: nat, limit: nat, size: nat) {
    forall i: nat :: section < i < limit && i in heads ==> i - 1 in heads && Ancestor(heads[i], size) == heads[i - 1]
  }

  lemma HeadsBelow(heads: map<nat, Hash>, stored: nat, checkpoint: nat, size: nat)
    requires HeadsOk(heads, stored, checkpoint, size)
    ensures forall i: nat :: i in heads ==> i < stored
  {
    forall i: nat | i in heads ensures i < stored {
      assert HeadLinked(heads, stored, checkpoint, size, i);
    }
  }

  /** So the chain has no gap down to the checkpoint. */
  lemma {:induction false} NoGaps(heads: map<nat, Hash>, stored: nat, checkpoint: nat, size: nat, i: nat)
    requires HeadsOk(heads, stored, checkpoint, size) && checkpoint <= i + 1 && i < stored
    ensures i in heads
    decreases stored - i
  {
    if i < stored - 1 {
      NoGaps(heads, stored, checkpoint, size, i + 1);
      assert HeadLinked(heads, stored, checkpoint, size, i + 1);
    }
  }

  /** And any two of its heads are the right number of parents apart. */
  lemma {:induction false} HeadsApart(heads: map<nat, Hash>, stored: nat, checkpoint: nat, size: nat, i: nat, k: nat)
    requires HeadsOk(heads, stored, checkpoint, size) && checkpoint <= i - k + 1 && k <= i < stored
    ensures i in heads && i - k in heads && Ancestor(heads[i], k * size) == heads[i - k]
    decreases k
  {
    NoGaps(heads, stored, checkpoint, size, i);
    NoGaps(heads, stored, checkpoint, size, i - k);
    if k > 0 {
      assert HeadLinked(heads, stored, checkpoint, size, i);
      HeadsApart(heads, stored, checkpoint, size, i - 1, k - 1);
      AncestorTwice(heads[i], size, (k - 1) * size);
      assert size + (k - 1) * size == k * size;
    } else {
      assert 0 * size == 0;
    }
  }

  /** When the heads are in order after a checkpoint was moved. */
  lemma CheckpointMoved(heads: map<nat, Hash>, stored: nat, checkpoint: nat, heads': map<nat, Hash>, stored': nat,
                        size: nat, section: nat, head: Hash)
    requires HeadsOk(heads, stored, checkpoint, size)
    requires if section < stored then heads' == heads && stored' == stored
             else heads' == heads[section := head] && stored' == section + 1
    ensures HeadsOk(heads', stored', section + 1, size) <==>
              if section < stored then LinkedAbove(heads, section, checkpoint, size) else head.HashOf?
  {
    if HeadsOk(heads', stored', section + 1, size) {
      forall i: nat | section < i < checkpoint && i in heads
        ensures section < stored ==> i - 1 in heads && Ancestor(heads[i], size) == heads[i - 1]
      {
        assert HeadLinked(heads', stored', section + 1, size, i);
      }
      assert HeadLinked(heads', stored', section + 1, size, section);
    }
    var limit := section + 1;
    if if section < stored then LinkedAbove(heads, section, checkpoint, size) else head.HashOf? {
      forall i: nat ensures HeadLinked(heads', stored', limit, size, i) {
        assert HeadLinked(heads, stored, checkpoint, size, i);
      }
    }
  }

  // ----- canonical heads -----

  /** The number of a section's last block. */
  function LastOf(section: nat, size: nat): nat
    requires size > 0
  {
    section * size + size - 1
  }

  /** The head of section `i` is the canonical block at the end of that section. */
  ghost predicate CanonicalAt(heads: map<nat, Hash>, size: nat, v: ChainView, i: nat) {
    i in heads && (i + 1) * size >= 1 && (i + 1) * size - 1 in v.canon && v.canon[(i + 1) * size - 1] == heads[i]
  }

  /** All heads from the checkpoint on are canonical. */
  ghost predicate AllCanonical(heads: map<nat, Hash>, stored: nat, checkpoint: nat, size: nat, v: ChainView) {
    forall i: nat :: checkpoint <= i + 1 && i < stored ==> CanonicalAt(heads, size, v, i)
  }

  /** Since the heads are linked, the last one decides: all are canonical if and only if it is. */
  lemma LastDecides(heads: map<nat, Hash>, stored: nat, checkpoint: nat, size: nat, v: ChainView)
    requires HeadsOk(heads, stored, checkpoint, size) && v.Valid() && size > 0 && checkpoint <= stored && stored > 0
    ensures AllCanonical(heads, stored, checkpoint, size, v) <==> CanonicalAt(heads, size, v, stored - 1)
  {
    if CanonicalAt(heads, size, v, stored - 1) {
      forall i: nat | checkpoint <= i + 1 && i < stored ensures CanonicalAt(heads, size, v, i) {
        var k := stored - 1 - i;
        HeadsApart(heads, stored, checkpoint, size, stored - 1, k);
        Apart(i, stored, size);
        IndexDescends(v.canon, v.headers, v.genesis, v.head, stored * size - 1, k * size);
      }
    }
  }

  lemma Apart(i: nat, stored: nat, size: nat)
    requires i < stored && size > 0
    ensures (i + 1) * size >= 1 && (stored - 1 - i) * size == stored * size - (i + 1) * size
  {
  }

  /** `v` and `v'` have the same canonical chain up to number `h` and share nothing above. */
  ghost predicate ForkAt(v: ChainView, v': ChainView, h: nat) {
    && (forall n: nat :: n <= h && n in v.canon ==> n in v'.canon && v'.canon[n] == v.canon[n])
    && (forall n: nat :: n > h && n in v.canon && n in v'.canon ==> v'.canon[n] != v.canon[n])
  }

  /**
   If the last head was read from a chain `vl`, all heads are canonical on `v` if
   and only if the fork is not below it.
   */
  lemma CanonicalIff(heads: map<nat, Hash>, section: nat, checkpoint: nat, size: nat, vl: ChainView, v: ChainView,
                     h: nat)
    requires HeadsOk(heads, section + 1, checkpoint, size) && size > 0 && checkpoint <= section + 1
    requires v.Valid() && ForkAt(vl, v, h) && section in heads && heads[section].HashOf?
    requires ReadAt(vl, LastOf(section, size)) == Some(heads[section].header)
    ensures AllCanonical(heads, section + 1, checkpoint, size, v) <==> h >= LastOf(section, size)
  {
    assert section * size + size == (section + 1) * size;
    LastDecides(heads, section + 1, checkpoint, size, v);
  }

  /** The canonical header a reader finds at a number. */
  function ReadAt(v: ChainView, number: nat): Option<Header> {
    if number in v.canon && Stored(v.headers, v.canon[number], number) then Some(v.canon[number].header) else None
  }

  /** Processing stops at block `i` of a section that starts at `first`: it is missing, does not follow, or fails. */
  ghost predicate Broken(views: nat -> ChainView, works: Header -> bool, first: nat, lastHead: Hash, i: nat) {
    var n := first + i;
    var v := views(n);
    || n !in v.canon || !Stored(v.headers, v.canon[n], n) || !works(v.canon[n].header)
    || (if i == 0 then v.canon[n].header.parent != lastHead
        else
          var u := views(n - 1);
          n - 1 in u.canon && Stored(u.headers, u.canon[n - 1], n - 1) && v.canon[n].header.parent != u.canon[n - 1])
  }

  /**
   Processes a section on top of `lastHead`, reading the chain block by block
   while it may change.  It succeeds exactly if no block breaks the section, and
   what it returns then is a chain of `size` blocks that leads back to `lastHead`,
   whatever happened in between.
   */
  method ProcessSection(views: nat -> ChainView, works: Header -> bool, section: nat, size: nat, lastHead: Hash)
    returns (r: Option<Hash>)
    requires size > 0
    ensures r.Some? <==> forall i: nat :: i < size ==> !Broken(views, works, section * size, lastHead, i)
    ensures r.Some? ==> r.value.HashOf? && Ancestor(r.value, size) == lastHead
    ensures r.Some? ==> r.value.header.number == section * size + size - 1
    ensures r.Some? ==> ReadAt(views(section * size + size - 1), section * size + size - 1) == Some(r.value.header)
  {
    var last := lastHead;
    var first := section * size;
    for i := 0 to size
      invariant Ancestor(last, i) == lastHead
      invariant i > 0 ==> last.HashOf? && ReadAt(views(first + i - 1), first + i - 1) == Some(last.header)
      invariant i == 0 ==> last == lastHead
      invariant forall j: nat :: j < i ==> !Broken(views, works, first, lastHead, j)
    {
      var number := first + i;
      var read := ReadAt(views(number), number);
      if read.None? || read.value.parent != last || !works(read.value) {
        assert Broken(views, works, first, lastHead, i);
        return None;
      }
      assert Ancestor(read.value.Hash(), i + 1) == Ancestor(read.value.parent, i);
      last := read.value.Hash();
    }
    return Some(last);
  }

  /** The sections wholly below a block are those before the one it is in. */
  lemma EndsBelow(section: nat, size: nat, head: nat)
    requires size > 0
    ensures LastOf(section, size) < head <==> section < head / size
  {
    var k := head / size;
    InSection(head, size, k);
    if section < k {
      Monotone(section + 1, k, size);
    } else {
      Monotone(k, section, size);
    }
    assert (section + 1) * size == section * size + size;
  }

  lemma InSection(head: nat, size: nat, k: nat)
    requires size > 0 && k == head / size
    ensures k * size <= head < k * size + size
  {
  }

  lemma Monotone(a: nat, b: nat, size: nat)
    requires a <= b
    ensures a * size <= b * size
  {
  }

  /** A notice to child indexers: a new head, or a reorganisation down to it. */
  datatype Told = Told(head: nat, reorg: bool)

  /** What the update loop remembers while it works without the lock. */
  datatype Job = NoJob | Working(section: nat, oldHead: Hash, failed: bool)

  class ChainIndexer {
    const size: nat
    const confirms: nat
    var heads: map<nat, Hash>
    var stored: nat
    var known: nat
    var cascaded: nat
    var checkpoint: nat
    var checkpointHead: Hash
    var job: Job

    ghost predicate Valid()
      reads this
    {
      && size > 0 && HeadsOk(heads, stored, checkpoint, size)
      && (job.Working? ==> stored <= job.section && (job.oldHead.ZeroHash? <==> job.section == 0))
    }

    constructor (size: nat, confirms: nat)
      requires size > 0
      ensures Valid() && this.size == size && this.confirms == confirms
      ensures heads == map[] && stored == 0 && known == 0 && checkpoint == 0 && job.NoJob?
    {
      this.size, this.confirms := size, confirms;
      heads, stored, known, cascaded := map[], 0, 0, 0;
      checkpoint, checkpointHead, job := 0, ZeroHash, NoJob;
    }

    /**
     Adds a checkpoint.  A section already stored only moves the checkpoint, and the
     indexer stays consistent if and only if the heads that an earlier, higher
     checkpoint excused are linked down to it.  A section not yet stored becomes the
     last one, and the indexer stays consistent if and only if the checkpoint has a
     hash and does not overtake the section being processed.
     */
    method AddCheckpoint(section: nat, head: Hash)
      requires Valid()
      modifies this`heads, this`stored, this`checkpoint, this`checkpointHead
      ensures checkpoint == section + 1 && checkpointHead == head
      ensures section < old(stored) ==> heads == old(heads) && stored == old(stored)
      ensures section >= old(stored) ==> heads == old(heads)[section := head] && stored == section + 1
      ensures Valid() <==>
                if section < old(stored) then LinkedAbove(old(heads), section, old(checkpoint), size)
                else head.HashOf? && (job.Working? ==> section < job.section)
    {
      HeadsBelow(heads, stored, checkpoint, size);
      checkpoint, checkpointHead := section + 1, head;
      if section >= stored {
        heads := heads[section := head];
        SetValidSections(section + 1);
        assert heads == old(heads)[section := head];
      }
      CheckpointMoved(old(heads), old(stored), old(checkpoint), heads, stored, size, section, head);
    }

    /** Sets the number of valid sections, removing the heads of those given up. */
    method SetValidSections(sections: nat)
      modifies this`heads, this`stored
      ensures stored == sections
      ensures forall i: nat :: i in heads <==> i in old(heads) && (i < sections || i >= old(stored))
      ensures forall i: nat :: i in heads ==> heads[i] == old(heads)[i]
    {
      while stored > sections
        invariant stored <= old(stored) && (stored >= sections || stored == old(stored))
        invariant forall i: nat :: i in heads <==> i in old(heads) && (i < stored || i >= old(stored))
        invariant forall i: nat :: i in heads ==> heads[i] == old(heads)[i]
      {
        stored := stored - 1;
        heads := heads - {stored};
      }
      stored := sections;
    }

    /** Gives up the sections from `sections` on. */
    method Revert(sections: nat)
      requires Valid() && sections <= stored && (sections > 0 ==> sections >= checkpoint)
      modifies this`heads, this`stored
      ensures Valid() && stored == sections
      ensures forall i: nat :: i in heads <==> i in old(heads) && i < sections
      ensures forall i: nat :: i in heads ==> heads[i] == old(heads)[i]
    {
      HeadsBelow(heads, stored, checkpoint, size);
      SetValidSections(sections);
      forall i: nat ensures HeadLinked(heads, stored, checkpoint, size, i) {
        assert HeadLinked(old(heads), old(stored), checkpoint, size, i);
      }
      if sections > 0 {
        NoGaps(old(heads), old(stored), checkpoint, size, sections - 1);
      }
    }

    /** A notice of a new head, or of a reorganisation down to the block `head`; `told` is what children are told. */
    method NewHead(head: nat, reorg: bool, syncedHead: Hash) returns (told: Option<Told>)
      requires Valid()
      modifies this`heads, this`stored, this`known, this`cascaded
      ensures Valid()
      ensures !reorg ==> heads == old(heads) && stored == old(stored) && cascaded == old(cascaded) && told == None
      ensures !reorg ==> known == KnownAfter(head, old(known), syncedHead)
      // the sections known are as many as have their last block confirmed
      ensures !reorg ==> Recognised(head, old(known), known, syncedHead)
      ensures reorg ==> RevertedTo(head / size, old(heads), old(stored), old(known))
      // what a reorganisation leaves of the sections past the checkpoint lies below it
      ensures reorg ==> forall i :: i in old(heads) ==> (i in heads <==> i < checkpoint || LastOf(i, size) < head)
      ensures reorg ==> CascadedTo(if head / size < checkpoint then 0 else head / size, old(cascaded), told)
    {
      told := None;
      if reorg {
        told := GiveUp(head);
        return;
      }
      MoreKnown(head, syncedHead);
    }

    /** A new head on top of the old one. */
    method MoreKnown(head: nat, syncedHead: Hash)
      requires size > 0
      modifies this`known
      ensures known == KnownAfter(head, old(known), syncedHead) && Recognised(head, old(known), known, syncedHead)
    {
      KnownIsRecognised(head, known, syncedHead);
      if head >= confirms {
        var sections := (head + 1 - confirms) / size;
        if sections < checkpoint {
          sections := 0;
        }
        if sections > known {
          if known < checkpoint && syncedHead != checkpointHead {
            return;
          }
          known := sections;
        }
      }
    }

    /** A reorganisation down to the block `head`. */
    method GiveUp(head: nat) returns (told: Option<Told>)
      requires Valid()
      modifies this`heads, this`stored, this`known, this`cascaded
      ensures Valid() && RevertedTo(head / size, old(heads), old(stored), old(known))
      ensures forall i :: i in old(heads) ==> (i in heads <==> i < checkpoint || LastOf(i, size) < head)
      ensures CascadedTo(if head / size < checkpoint then 0 else head / size, old(cascaded), told)
    {
      var k := head / size;
      RevertTo(k);
      HeadsBelow(old(heads), old(stored), checkpoint, size);
      KeptLieBelow(old(heads), old(stored), old(known), head);
      told := Cascade(if k < checkpoint then 0 else k);
    }

    /** Children that are further than the end of section `k` are told. */
    ghost predicate CascadedTo(k: nat, oldCascaded: nat, told: Option<Told>)
      reads this
    {
      if k * size < oldCascaded then cascaded == k * size && told == Some(Told(k * size, true))
      else cascaded == oldCascaded && told == None
    }

    method Cascade(k: nat) returns (told: Option<Told>)
      modifies this`cascaded
      ensures CascadedTo(k, old(cascaded), told)
    {
      told := None;
      var end := k * size;
      if end < cascaded {
        cascaded := end;
        told := Some(Told(cascaded, true));
      }
    }

    lemma KeptLieBelow(oldHeads: map<nat, Hash>, oldStored: nat, oldKnown: nat, head: nat)
      requires size > 0 && (forall i :: i in oldHeads ==> i < oldStored)
      requires RevertedTo(head / size, oldHeads, oldStored, oldKnown)
      ensures forall i :: i in oldHeads ==> (i in heads <==> i < checkpoint || LastOf(i, size) < head)
    {
      forall i | i in oldHeads ensures i in heads <==> i < checkpoint || LastOf(i, size) < head {
        EndsBelow(i, size, head);
      }
    }

    /** Reverts the known and the stored sections to the reorganisation point. */
    method RevertTo(k: nat)
      requires Valid()
      modifies this`heads, this`stored, this`known
      ensures Valid() && RevertedTo(k, old(heads), old(stored), old(known))
    {
      var s, k' := k, k;
      if k' < checkpoint {
        k' := 0;
      }
      if s < checkpoint {
        s := checkpoint;
      }
      if k' < known {
        known := k';
      }
      HeadsBelow(heads, stored, checkpoint, size);
      if s < stored {
        Revert(s);
      }
    }

    /** The sections known after a new head: those that are confirmed, once the checkpoint has been recognised. */
    ghost function KnownAfter(head: nat, known: nat, syncedHead: Hash): nat
      reads this
      requires size > 0
    {
      var confirmed := if head < confirms then 0 else (head + 1 - confirms) / size;
      if confirmed < checkpoint || confirmed <= known || (known < checkpoint && syncedHead != checkpointHead) then known
      else confirmed
    }

    /**
     More sections are known after a new head only if the last block of each has its
     confirmations and the checkpoint is recognised and among them; then, as many as that.
     */
    ghost predicate Recognised(head: nat, known: nat, known': nat, syncedHead: Hash)
      reads this
      requires size > 0
    {
      var trusted := known >= checkpoint || syncedHead == checkpointHead;
      if known' != known then
        && known' > known && known' >= checkpoint && trusted
        && LastOf(known' - 1, size) + confirms <= head < LastOf(known', size) + confirms
      else
        || head < LastOf(known, size) + confirms || !trusted
        || (checkpoint > 0 && head < LastOf(checkpoint - 1, size) + confirms)
    }

    lemma KnownIsRecognised(head: nat, known: nat, syncedHead: Hash)
      requires size > 0
      ensures Recognised(head, known, KnownAfter(head, known, syncedHead), syncedHead)
    {
      var known' := KnownAfter(head, known, syncedHead);
      if head >= confirms {
        EndsBelow(known', size, head + 1 - confirms);
        EndsBelow(known, size, head + 1 - confirms);
        if known' > 0 {
          EndsBelow(known' - 1, size, head + 1 - confirms);
        }
        if checkpoint > 0 {
          EndsBelow(checkpoint - 1, size, head + 1 - confirms);
        }
      }
    }

    /** Everything past the checkpoint from section `k` on has been given up, and nothing else. */
    ghost predicate RevertedTo(k: nat, oldHeads: map<nat, Hash>, oldStored: nat, oldKnown: nat)
      reads this
    {
      var s := if k < checkpoint then checkpoint else k;
      && known == (if k < checkpoint then 0 else if k < oldKnown then k else oldKnown)
      && stored == (if s < oldStored then s else oldStored)
      && (forall i: nat :: i in heads <==> i in oldHeads && i < stored)
      && (forall i: nat :: i in heads ==> heads[i] == oldHeads[i])
    }

    /** The update loop takes up the next section, if there is one, and releases the lock. */
    method Begin()
      requires Valid() && job.NoJob?
      modifies this`job
      ensures Valid()
      ensures job == if known > stored
                     then Working(stored, if stored > 0 then HeadOf(heads, stored - 1) else ZeroHash, false) else NoJob
    {
      if known > stored {
        assert stored > 0 ==> HeadLinked(heads, stored, checkpoint, size, stored - 1);
        job := Working(stored, if stored > 0 then HeadOf(heads, stored - 1) else ZeroHash, false);
      }
    }

    /** The backend could not be reset: every section is given up, the lock not being held. */
    method ResetFails()
      requires Valid() && job.Working?
      modifies this`heads, this`stored, this`job
      ensures Valid() && stored == 0 && heads == map[] && job == old(job).(failed := true)
    {
      Revert(0);
      job := job.(failed := true);
      assert heads == map[];
    }

    /**
     The update loop has the lock again.  If processing succeeded and the head it
     built on is still there, the section is complete and children are told.
     */
    method Finish(result: Option<Hash>) returns (told: Option<Told>)
      requires Valid() && job.Working?
      requires result.Some? ==> result.value.HashOf? && Ancestor(result.value, size) == job.oldHead
      modifies this`heads, this`stored, this`known, this`cascaded, this`job
      ensures Valid() && job.NoJob?
      ensures var section := old(job).section;
              if result.Some? && (section == 0 || HeadOf(old(heads), section - 1) == old(job).oldHead) then
                && stored == section + 1 && heads == old(heads)[section := result.value] && known == old(known)
                && cascaded == stored * size - 1 && told == Some(Told(cascaded, false))
              else
                && stored == old(stored) && heads == old(heads) && known == stored
                && cascaded == old(cascaded) && told == None
    {
      var section, oldHead := job.section, job.oldHead;
      job, told := NoJob, None;
      var predecessor := if section > 0 then HeadOf(heads, section - 1) else ZeroHash;
      if result.Some? && oldHead == predecessor {
        assert section > 0 ==> HeadLinked(heads, stored, checkpoint, size, section - 1);
        HeadsBelow(heads, stored, checkpoint, size);
        heads := heads[section := result.value];
        SetValidSections(section + 1);
        assert heads == old(heads)[section := result.value];
        forall i: nat ensures HeadLinked(heads, stored, checkpoint, size, i) {
          assert HeadLinked(old(heads), old(stored), checkpoint, size, i);
        }
        OneOrMore(stored, size);
        cascaded := stored * size - 1;
        told := Some(Told(cascaded, false));
      } else {
        known := stored;
      }
    }

    /**
     A reorganisation down to block `h` is noticed after a section has been read and
     before it is marked complete.  If it, or an earlier notice, gave up the section
     that this one builds on, this one is not stored.  Otherwise it is, and the stored
     heads are canonical on the new chain `v` if and only if the fork is not below
     the section's last block.
     */
    method ReorgBeforeFinish(views: nat -> ChainView, works: Header -> bool, h: nat, v: ChainView)
      returns (done: bool)
      requires Valid() && job.Working? && !job.failed && v.Valid()
      requires ForkAt(views(LastOf(job.section, size)), v, h)
      modifies this`heads, this`stored, this`known, this`cascaded, this`job
      ensures Valid() && job.NoJob?
      ensures done && !old(KeepsBase(h)) ==> stored <= old(job).section && stored <= old(stored)
      ensures done && old(KeepsBase(h)) ==>
                && stored == old(job).section + 1
                && (checkpoint <= stored ==>
                      (AllCanonical(heads, stored, checkpoint, size, v) <==> h >= LastOf(old(job).section, size)))
    {
      ghost var section := job.section;
      var result := ReadSection(views, works);
      done := result.Some?;
      if !done {
        var told := Finish(None);
        return;
      }
      ghost var vl := views(LastOf(section, size));
      Interrupt(result.value, h);
      if stored == section + 1 && checkpoint <= stored {
        CanonicalIff(heads, section, checkpoint, size, vl, v, h);
      }
    }

    /** Processes the section being worked on. */
    method ReadSection(views: nat -> ChainView, works: Header -> bool) returns (result: Option<Hash>)
      requires Valid() && job.Working?
      ensures result.Some? ==>
                var n := LastOf(job.section, size);
                && result.value.HashOf? && Ancestor(result.value, size) == job.oldHead
                && ReadAt(views(n), n) == Some(result.value.header)
    {
      result := ProcessSection(views, works, job.section, size, job.oldHead);
    }

    /**
     The section before the one being processed is still there, and a reorganisation
     down to block `h` does not give it up.
     */
    ghost predicate KeepsBase(h: nat)
      reads this
      requires size > 0 && job.Working?
    {
      var s := job.section;
      s == 0 || (HeadOf(heads, s - 1) == job.oldHead && (s - 1 < h / size || s - 1 < checkpoint))
    }

    /** A notice of a reorganisation down to block `h`, and then the end of a section that was read before. */
    method Interrupt(result: Hash, h: nat)
      requires Valid() && job.Working? && result.HashOf? && Ancestor(result, size) == job.oldHead
      modifies this`heads, this`stored, this`known, this`cascaded, this`job
      ensures Valid() && job.NoJob?
      ensures if old(KeepsBase(h))
              then stored == old(job).section + 1 && old(job).section in heads && heads[old(job).section] == result
              else stored <= old(job).section && stored <= old(stored)
    {
      HeadsBelow(heads, stored, checkpoint, size);
      var told := NewHead(h, true, ZeroHash);
      HeadsBelow(heads, stored, checkpoint, size);
      told := Finish(Some(result));
    }

    /** Any interleaving of notices with the steps of the update loop. */
    method Run(events: seq<Event>)
      requires Valid()
      modifies this
      ensures Valid() && checkpoint == old(checkpoint)
    {
      for i := 0 to |events|
        invariant Valid() && checkpoint == old(checkpoint)
      {
        match events[i]
        case Notice(head, reorg, syncedHead) =>
          var told := NewHead(head, reorg, syncedHead);
        case Start =>
          if job.NoJob? {
            Begin();
          }
        case Done(views, works) =>
          if job.Working? {
            var result := None;
            if !job.failed {
              result := ReadSection(views, works);
            }
            var told := Finish(result);
          }
        case BackendDown =>
          if job.Working? {
            ResetFails();
          }
      }
    }
  }

  /** The chain of the genesis block and one more. */
  function TwoBlocks(genesis: Header, a: Header): ChainView {
    ChainView(genesis, {genesis, a}, map[0 := genesis.Hash(), 1 := a.Hash()], a)
  }

  method ReadTwoBlocks(genesis: Header, a: Header) returns (result: Option<Hash>)
    requires genesis.number == 0 && genesis.parent == ZeroHash && a.number == 1 && a.parent == genesis.Hash()
    ensures result == Some(a.Hash())
  {
    var views, works := (n: nat) => TwoBlocks(genesis, a), (h: Header) => true;
    result := ProcessSection(views, works, 0, 2, ZeroHash);
    assert forall i: nat :: i < 2 ==> !Broken(views, works, 0, ZeroHash, i);
  }

  /**
   Sections of two blocks on the chain of the genesis block and `a`.  The first
   section is read, then `b` replaces `a`, the indexer is told, and it stores the
   section with `a` as its head.
   */
  method StaleSection(genesis: Header, a: Header, b: Header) returns (c: ChainIndexer)
    requires genesis.number == 0 && genesis.parent == ZeroHash && a != b
    requires a.number == b.number == 1 && a.parent == b.parent == genesis.Hash()
    ensures TwoBlocks(genesis, b).Valid() && TwoBlocks(genesis, b).canon[1] != a.Hash()
    ensures c.Valid() && c.size == 2 && c.stored == 1 && c.heads == map[0 := a.Hash()]
  {
    c := new ChainIndexer(2, 0);
    var told := c.NewHead(1, false, ZeroHash);
    c.Begin();
    var result := ReadTwoBlocks(genesis, a);
    assert Ancestor(a.Hash(), 2) == Ancestor(genesis.Hash(), 1) == ZeroHash;
    told := c.NewHead(0, true, ZeroHash);
    told := c.Finish(result);
  }

  lemma OneOrMore(n: nat, size: nat)
    requires n > 0 && size > 0
    ensures n * size >= 1
  {
  }

  datatype Event =
    | Notice(head: nat, reorg: bool, syncedHead: Hash)
    | Start
    | Done(views: nat -> ChainView, works: Header -> bool)
    | BackendDown
}
