/**
 * The renderer's vertex-buffer pool: GL buffers keyed by an increasing id,
 * each stamped with the time it was created, and a leak sweep that forgets
 * buffers older than ten seconds. The clock is passed in as `now`
 * (milliseconds) and a GL buffer handle as `glBuffer`.
 */
module Pool {
  import opened Wrappers

  /** Buffers whose creation stamp is older than this many milliseconds are swept. */
  const LeakAge: int := 10000

  /**
   * A pool entry. The sweep reads `lastTimeAccess`, which only creation sets;
   * an access stamps the differently named `lastAccessTime`.
   */
  datatype VbEntry = VbEntry(id: nat, glBuffer: nat, lastTimeAccess: int, lastAccessTime: Option<int>)

  /** Whether a sweep runs at `now`: the last one is over ten seconds old, or lies in the future. */
  predicate SweepDue(lastTimeCheck: int, now: int)
  {
    lastTimeCheck < now - LeakAge || lastTimeCheck > now
  }

  /** The entries a sweep at `now` keeps. */
  function Survivors(vbs: map<nat, VbEntry>, now: int): map<nat, VbEntry>
  {
    map k | k in vbs && vbs[k].lastTimeAccess >= now - LeakAge :: vbs[k]
  }

  /** The pool as `checkLeaks` at `now` leaves it. */
  function Swept(vbs: map<nat, VbEntry>, lastTimeCheck: int, now: int): map<nat, VbEntry>
  {
    if SweepDue(lastTimeCheck, now) then Survivors(vbs, now) else vbs
  }

  /** The pool after an access to entry `k` at time `t`. */
  function Touch(vbs: map<nat, VbEntry>, k: nat, t: int): map<nat, VbEntry>
    requires k in vbs
  {
    vbs[k := vbs[k].(lastAccessTime := Some(t))]
  }

  class TileRenderer {
    var vbs: map<nat, VbEntry>
    var lastTimeCheck: int
    /** The id counter; a class-wide static in the renderer, one per pool here. */
    var vbAutoincrement: nat

    /** Every key is an id already handed out, and names its own entry. */
    ghost predicate Valid()
      reads this
    {
      forall k <- vbs :: 1 <= k <= vbAutoincrement && vbs[k].id == k
    }

    constructor()
      ensures vbs == map[] && lastTimeCheck == 0 && vbAutoincrement == 0
      ensures Valid()
    {
      vbs := map[];
      lastTimeCheck := 0;
      vbAutoincrement := 0;
    }

    /** A lost GL context forgets every buffer; the counter keeps counting. */
    method OnContextChange()
      modifies this
      ensures vbs == map[] && lastTimeCheck == old(lastTimeCheck) && vbAutoincrement == old(vbAutoincrement)
      ensures Valid()
    {
      vbs := map[];
    }

    /** The leak sweep: when due, stamps `now` and drops exactly the entries created before `now - LeakAge`. */
    method CheckLeaks(now: int)
      requires Valid()
      modifies this
      ensures Valid() && vbAutoincrement == old(vbAutoincrement)
      ensures SweepDue(old(lastTimeCheck), now) ==> lastTimeCheck == now && vbs == Survivors(old(vbs), now)
      ensures !SweepDue(old(lastTimeCheck), now) ==> lastTimeCheck == old(lastTimeCheck) && vbs == old(vbs)
    {
      if SweepDue(lastTimeCheck, now) {
        lastTimeCheck := now;
        var keys := vbs.Keys;
        ghost var start := vbs;
        while keys != {}
          invariant keys <= start.Keys && start == old(vbs)
          invariant lastTimeCheck == now && vbAutoincrement == old(vbAutoincrement) && Valid()
          invariant vbs == map k | k in start && (k in keys || start[k].lastTimeAccess >= now - LeakAge) :: start[k]
          decreases keys
        {
          var key :| key in keys;
          if vbs[key].lastTimeAccess < now - LeakAge {
            vbs := vbs - {key};
          }
          keys := keys - {key};
        }
      }
    }

    /** Sweeps, then looks up `id`; a live entry is stamped with the access time and returned. */
    method GetVb(id: Option<nat>, now: int) returns (vb: Option<VbEntry>)
      requires Valid()
      modifies this
      ensures Valid() && vbAutoincrement == old(vbAutoincrement)
      ensures lastTimeCheck == (if SweepDue(old(lastTimeCheck), now) then now else old(lastTimeCheck))
      ensures var swept := Swept(old(vbs), old(lastTimeCheck), now);
        if id.Some? && id.value in swept then
          vbs == Touch(swept, id.value, now) && vb == Some(vbs[id.value])
        else
          vbs == swept && vb == None
    {
      CheckLeaks(now);
      if id.Some? && id.value in vbs {
        vbs := Touch(vbs, id.value, now);
        vb := Some(vbs[id.value]);
      } else {
        vb := None;
      }
    }

    /** Hands out the next id, above every id in use, for a new entry stamped `now`. */
    method CreateVb(now: int, glBuffer: nat) returns (vb: VbEntry)
      requires Valid()
      modifies this
      ensures Valid()
      ensures vb == VbEntry(old(vbAutoincrement) + 1, glBuffer, now, None)
      ensures vbAutoincrement == vb.id
      ensures forall k <- old(vbs) :: k < vb.id
      ensures vbs == old(vbs)[vb.id := vb] && lastTimeCheck == old(lastTimeCheck)
    {
      vbAutoincrement := vbAutoincrement + 1;
      vb := VbEntry(vbAutoincrement, glBuffer, now, None);
      vbs := vbs[vb.id := vb];
    }

    /** Forgets entry `id` if it is live. */
    method RemoveVb(id: nat)
      requires Valid()
      modifies this
      ensures Valid()
      ensures vbs == old(vbs) - {id}
      ensures lastTimeCheck == old(lastTimeCheck) && vbAutoincrement == old(vbAutoincrement)
    {
      if id in vbs {
        vbs := vbs - {id};
      }
    }
  }

  /**
   * A sweep keeps exactly the entries created at or after `now - LeakAge`,
   * unchanged, and a second sweep at the same time removes nothing more.
   */
  lemma SurvivorsExact(vbs: map<nat, VbEntry>, now: int)
    ensures forall k :: k in Survivors(vbs, now) <==> k in vbs && vbs[k].lastTimeAccess >= now - LeakAge
    ensures forall k <- Survivors(vbs, now) :: Survivors(vbs, now)[k] == vbs[k]
    ensures Survivors(Survivors(vbs, now), now) == Survivors(vbs, now)
  {
  }

  /** Sweeping at `t1` and then at a later `t2` leaves what one sweep at `t2` leaves. */
  lemma SurvivorsLater(vbs: map<nat, VbEntry>, t1: int, t2: int)
    requires t1 <= t2
    ensures Survivors(Survivors(vbs, t1), t2) == Survivors(vbs, t2)
  {
  }

  /** Access never keeps an entry alive: the sweep sees a touched pool exactly as the untouched one. */
  lemma AccessDoesNotExtend(vbs: map<nat, VbEntry>, k: nat, t: int, now: int)
    requires k in vbs
    ensures Survivors(Touch(vbs, k, t), now).Keys == Survivors(vbs, now).Keys
  {
  }

  /** An entry created at `created` is gone after any sweep later than `created + LeakAge`, however often it was used. */
  lemma EntryExpires(vbs: map<nat, VbEntry>, k: nat, now: int)
    requires k in vbs && now > vbs[k].lastTimeAccess + LeakAge
    ensures k !in Survivors(vbs, now)
  {
  }

  /** After a sweep at `now`, the next one is due only past `now + LeakAge`, or if the clock goes back. */
  lemma SweepCadence(now: int, later: int)
    ensures SweepDue(now, later) <==> later > now + LeakAge || later < now
  {
  }
}
