/** From the scheduler to the next lookup: what was saved is found again. */
module SaveChain {
  import opened Arithmetic
  import opened Common
  import opened StoreKeys
  import C = Chunks
  import E = SaveEvents
  import SR = SaveRanges
  import SS = SchedulerSaves
  import SV = StripedSaves
  import L = Lookup
  import HS = HitSearch

  /** Hashes of a save reach its end. */
  predicate HashesReach(p: E.Pool, events: seq<E.SaveEvent>) {
    forall k, g :: 0 <= k < |events| && 0 <= g < |p.databases| ==>
      |events[k].hashes| * p.databases[g].hashSize >= events[k].end
  }

  lemma {:induction false} HashesGrow(size: nat, sizes: seq<nat>, life: SR.Life, k: nat)
    requires size > 0 && SR.LifeValid(size, sizes, life) && k < |life.saves|
    ensures life.saves[k].hashes <= life.t.hashes
    decreases |life.saves| - k
  {
    if k + 1 < |life.saves| {
      HashesGrow(size, sizes, life, k + 1);
      assert SR.Continues(life.saves[k], life.saves[k + 1]);
    }
  }

  /** In every run of the scheduler, the saves of a request on P follow each other from its first token on. */
  lemma ScheduledSavesAreSuccessive(p: E.Pool, c: SS.Setup, run: seq<SS.Ledger>, steps: seq<SS.Step>, i: nat, r: string)
    requires E.PoolValid(p) && c.size == p.lcm && SS.IsRun(c, run, steps) && i < |run|
    requires r in run[i].tracked && !run[i].tracked[r].decode && r in run[i].sent && HashesReach(p, run[i].sent[r])
    ensures SV.Successive(p, run[i].sent[r], run[i].tracked[r].hashes)
    ensures SV.SavedEnd(run[i].sent[r]) == run[i].tracked[r].saved
  {
    var t, events := run[i].tracked[r], run[i].sent[r];
    var lives, turns := SS.SavesFormLife(c, run, steps, i, r);
    var life := lives[|lives| - 1];
    SR.LivesValid(c.size, c.sizes, lives, turns, |lives| - 1);
    if events != [] {
      SS.ScheduledSavesAreContiguous(c, run, steps, i, r, 0);
    }
    forall k | 0 <= k < |events|
      ensures SV.SavesWhole(p, events[k]) && events[k].hashes <= t.hashes
      ensures events[k].start == if k == 0 then 0 else events[k - 1].end
    {
      SS.ScheduledSavesAreContiguous(c, run, steps, i, r, k);
      HashesGrow(c.size, c.sizes, life, k);
    }
  }

  /**
   Main result. Once all workers have stored what the scheduler had saved of a request on P, a lookup of a request that
   begins with the same hashes finds every aligned length up to where the scheduler counts the request as saved.
   */
  lemma ScheduledIsFound(p: E.Pool, c: SS.Setup, run: seq<SS.Ledger>, steps: seq<SS.Step>, i: nat, r: string,
                         layout: Layout, model: string, pools: Worker -> E.Pool, hashes: seq<C.Hash>,
                         stored: set<string>, tokenCount: nat, present: set<L.Candidate>, groups: seq<L.Attention>,
                         valid: seq<iset<nat>>, hit: nat, l: nat)
    requires E.PoolValid(p) && c.size == p.lcm && SS.IsRun(c, run, steps) && i < |run|
    requires r in run[i].tracked && !run[i].tracked[r].decode && r in run[i].sent && HashesReach(p, run[i].sent[r])
    requires run[i].tracked[r].hashes <= hashes
    requires LayoutValid(layout) && SV.PoolsOf(layout, p, pools) && SV.WantsAll(p)
    requires forall e :: e in run[i].sent[r] ==> SV.Stored(layout, model, pools, e, stored)
    requires L.DatabasesValid(p.databases)
    requires L.PresentIs(layout, model, p.databases, tokenCount, hashes, stored, present)
    requires SV.AllFull(p, hashes, present, groups, valid) && HS.GreatestCommon(valid, tokenCount, hit)
    requires l % p.lcm == 0 && l <= Min(run[i].tracked[r].saved, tokenCount)
    ensures hit >= l
  {
    ScheduledSavesAreSuccessive(p, c, run, steps, i, r);
    SV.SavedIsFound(layout, model, p, pools, run[i].sent[r], hashes, stored, tokenCount, present, groups, valid, hit,
                    l);
  }
}
