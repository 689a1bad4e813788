/**
 The chain-sync follower: an incremental, slot-based record of where watched transactions stand,
 kept under forward and backward steps, and its agreement with looking the transaction up in the
 chain itself.
 */
module Follower {
  import opened Prelude

  const RECENT_POINTS_CAP: nat := 32

  datatype Watch = Pending | Included(height: nat, slot: nat)

  datatype Point = Point(slot: nat, id: string)

  datatype Block = Block(id: string, slot: nat, height: nat, txIds: seq<string>)
  {
    /** The block holds this transaction; ids are compared in lower case. */
    predicate Holds(id: string) {
      exists i :: 0 <= i < |txIds| && Lower(txIds[i]) == id
    }
  }

  datatype ConfirmationStatus = Unconfirmed | Confirmed(depth: nat)

  /** The value of the follower's state. */
  datatype View = View(tipHeight: Option<nat>, watched: map<string, Watch>, recent: seq<Point>)

  const EMPTY_VIEW := View(None, map[], [])

  // ---------- the transitions ----------

  function WithWatch(v: View, txId: string): View {
    var id := Lower(txId);
    if id in v.watched then v else v.(watched := v.watched[id := Pending])
  }

  function WithoutWatch(v: View, txId: string): View {
    v.(watched := v.watched - {Lower(txId)})
  }

  function Newest(points: seq<Point>): seq<Point> {
    if |points| > RECENT_POINTS_CAP then points[|points| - RECENT_POINTS_CAP..] else points
  }

  function Forwarded(v: View, b: Block, tip: Option<nat>): View {
    View(
      Some(Max(tip.GetOr(b.height), b.height)),
      map id | id in v.watched :: if b.Holds(id) then Included(b.height, b.slot) else v.watched[id],
      Newest(v.recent + [Point(b.slot, b.id)]))
  }

  /** After the cut; everything is after the origin. */
  predicate IsCut(slot: nat, cut: Option<nat>) {
    cut.None? || slot > cut.value
  }

  function Uncut(points: seq<Point>, cut: Option<nat>): seq<Point> {
    if points == [] then []
    else if IsCut(points[0].slot, cut) then Uncut(points[1..], cut)
    else [points[0]] + Uncut(points[1..], cut)
  }

  function RolledBack(w: Watch, cut: Option<nat>): Watch {
    if w.Included? && IsCut(w.slot, cut) then Pending else w
  }

  function Backed(v: View, cut: Option<nat>, tip: Option<nat>): View {
    View(
      if tip.Some? then tip else v.tipHeight,
      map id | id in v.watched :: RolledBack(v.watched[id], cut),
      Uncut(v.recent, cut))
  }

  function StatusOf(v: View, txId: string): Option<ConfirmationStatus> {
    var id := Lower(txId);
    if id !in v.watched then None
    else
      match v.watched[id]
      case Pending => Some(Unconfirmed)
      case Included(height, _) =>
        var tip := Max(v.tipHeight.GetOr(height), height);
        Some(Confirmed(Min(tip - height + 1, U32_MAX)))
  }

  /** Newest first. */
  function Reversed(points: seq<Point>): seq<Point> {
    seq(|points|, i requires 0 <= i < |points| => points[|points| - 1 - i])
  }

  // ---------- the follower in place ----------

  class FollowerState {
    var tipHeight: Option<nat>
    var watched: map<string, Watch>
    var recentPoints: seq<Point>

    function Value(): View
      reads this
    {
      View(tipHeight, watched, recentPoints)
    }

    constructor ()
      ensures Value() == EMPTY_VIEW
    {
      tipHeight, watched, recentPoints := None, map[], [];
    }

    method Watch(txId: string)
      modifies this
      ensures Value() == WithWatch(old(Value()), txId)
    {
      var id := Lower(txId);
      if id !in watched {
        watched := watched[id := Pending];
      }
    }

    method Unwatch(txId: string)
      modifies this
      ensures Value() == WithoutWatch(old(Value()), txId)
    {
      watched := watched - {Lower(txId)};
    }

    method ApplyForward(b: Block, tip: Option<nat>)
      modifies this
      ensures Value() == Forwarded(old(Value()), b, tip)
    {
      var i := 0;
      while i < |b.txIds|
        invariant i <= |b.txIds|
        invariant tipHeight == old(tipHeight) && recentPoints == old(recentPoints)
        invariant watched.Keys == old(watched.Keys)
        invariant forall id :: id in watched ==>
                    watched[id] == if (exists j :: 0 <= j < i && Lower(b.txIds[j]) == id)
                                   then Included(b.height, b.slot) else old(watched)[id]
      {
        var id := Lower(b.txIds[i]);
        if id in watched {
          watched := watched[id := Included(b.height, b.slot)];
        }
        i := i + 1;
      }
      recentPoints := recentPoints + [Point(b.slot, b.id)];
      while |recentPoints| > RECENT_POINTS_CAP
        invariant Newest(recentPoints) == Newest(old(recentPoints) + [Point(b.slot, b.id)])
        invariant tipHeight == old(tipHeight)
        invariant watched == Forwarded(old(Value()), b, tip).watched
      {
        recentPoints := recentPoints[1..];
      }
      tipHeight := Some(Max(tip.GetOr(b.height), b.height));
    }

    method ApplyBackward(cut: Option<nat>, tip: Option<nat>)
      modifies this
      ensures Value() == Backed(old(Value()), cut, tip)
    {
      var todo := watched.Keys;
      while todo != {}
        invariant todo <= watched.Keys == old(watched.Keys)
        invariant tipHeight == old(tipHeight) && recentPoints == old(recentPoints)
        invariant forall id :: id in watched ==>
                    watched[id] == if id in todo then old(watched)[id] else RolledBack(old(watched)[id], cut)
        decreases |todo|
      {
        var id :| id in todo;
        if watched[id].Included? && (cut.None? || watched[id].slot > cut.value) {
          watched := watched[id := Pending];
        }
        todo := todo - {id};
      }
      recentPoints := Uncut(recentPoints, cut);
      if tip.Some? {
        tipHeight := tip;
      }
    }

    method Status(txId: string) returns (status: Option<ConfirmationStatus>)
      ensures status == StatusOf(Value(), txId)
    {
      var id := Lower(txId);
      if id !in watched {
        return None;
      }
      match watched[id] {
        case Pending => return Some(Unconfirmed);
        case Included(height, _) =>
          var tip := if tipHeight.Some? then tipHeight.value else height;
          var depth := (if tip > height then tip - height else 0) + 1;
          return Some(Confirmed(if depth > U32_MAX then U32_MAX else depth));
      }
    }

    method IntersectionPoints() returns (points: seq<Point>)
      ensures points == Reversed(recentPoints)
    {
      points := [];
      var i: nat := |recentPoints|;
      while i > 0
        invariant i <= |recentPoints| && |points| == |recentPoints| - i
        invariant forall k :: 0 <= k < |points| ==> points[k] == recentPoints[|recentPoints| - 1 - k]
      {
        i := i - 1;
        points := points + [recentPoints[i]];
      }
    }
  }

  // ---------- the chain it follows ----------

  /** One block precedes another: lower slot, lower height, no transaction in common. */
  ghost predicate Precedes(a: Block, b: Block) {
    && a.slot < b.slot && a.height < b.height
    && forall id :: a.Holds(id) ==> !b.Holds(id)
  }

  /** Slots and heights strictly increase, and no transaction occurs in two blocks. */
  ghost predicate IsChain(chain: seq<Block>) {
    forall i, j {:trigger Precedes(chain[i], chain[j])} :: 0 <= i < j < |chain| ==> Precedes(chain[i], chain[j])
  }

  lemma PrefixIsChain(chain: seq<Block>, n: nat)
    requires IsChain(chain) && n <= |chain|
    ensures IsChain(chain[..n])
  {
    forall i, j | 0 <= i < j < n
      ensures Precedes(chain[..n][i], chain[..n][j])
    {
      assert Precedes(chain[i], chain[j]);
    }
  }

  /** Where the transaction stands on this chain: the plain search, newest block first. */
  ghost function Lookup(chain: seq<Block>, id: string): Watch {
    if chain == [] then Pending
    else
      var last := chain[|chain| - 1];
      if last.Holds(id) then Included(last.height, last.slot) else Lookup(chain[..|chain| - 1], id)
  }

  lemma {:induction false} LookupFinds(chain: seq<Block>, id: string, i: nat)
    requires IsChain(chain) && i < |chain| && chain[i].Holds(id)
    ensures Lookup(chain, id) == Included(chain[i].height, chain[i].slot)
  {
    if i < |chain| - 1 {
      assert Precedes(chain[i], chain[|chain| - 1]);
      PrefixIsChain(chain, |chain| - 1);
      LookupFinds(chain[..|chain| - 1], id, i);
    }
  }

  lemma {:induction false} LookupIsSomewhere(chain: seq<Block>, id: string) returns (i: nat)
    requires Lookup(chain, id).Included?
    ensures i < |chain| && chain[i].Holds(id) && Lookup(chain, id) == Included(chain[i].height, chain[i].slot)
  {
    if chain[|chain| - 1].Holds(id) {
      i := |chain| - 1;
    } else {
      i := LookupIsSomewhere(chain[..|chain| - 1], id);
    }
  }

  /** A cut between position `keep` and the rest: the server names the point by its slot. */
  ghost predicate CutsAt(chain: seq<Block>, keep: nat, cut: Option<nat>) {
    && keep <= |chain|
    && (forall i :: 0 <= i < |chain| ==> (IsCut(chain[i].slot, cut) <==> i >= keep))
  }

  /** Cutting the record of a transaction by slot is looking it up in the truncated chain. */
  lemma CuttingIsTruncating(chain: seq<Block>, keep: nat, cut: Option<nat>, id: string)
    requires IsChain(chain) && CutsAt(chain, keep, cut)
    ensures RolledBack(Lookup(chain, id), cut) == Lookup(chain[..keep], id)
  {
    var short := chain[..keep];
    PrefixIsChain(chain, keep);
    if Lookup(short, id).Included? {
      var j := LookupIsSomewhere(short, id);
      LookupFinds(chain, id, j);
    } else if Lookup(chain, id).Included? {
      var i := LookupIsSomewhere(chain, id);
      if i < keep {
        LookupFinds(short, id, i);
      }
    }
  }

  function PointOf(b: Block): Point {
    Point(b.slot, b.id)
  }

  /** The recent points are the newest points of the chain, in order, at most the cap. */
  ghost predicate RecentIsSuffix(v: View, chain: seq<Block>) {
    && |v.recent| <= RECENT_POINTS_CAP && |v.recent| <= |chain|
    && (forall i :: 0 <= i < |v.recent| ==> v.recent[i] == PointOf(chain[|chain| - |v.recent| + i]))
  }

  lemma {:induction false} UncutIsPrefix(points: seq<Point>, cut: Option<nat>, keep: nat)
    requires keep <= |points|
    requires forall i :: 0 <= i < |points| ==> (IsCut(points[i].slot, cut) <==> i >= keep)
    ensures Uncut(points, cut) == points[..keep]
  {
    if points != [] {
      if keep == 0 {
        UncutIsPrefix(points[1..], cut, 0);
      } else {
        UncutIsPrefix(points[1..], cut, keep - 1);
        assert [points[0]] + points[1..][..keep - 1] == points[..keep];
      }
    }
  }

  lemma ForwardKeepsSuffix(v: View, chain: seq<Block>, b: Block, tip: Option<nat>)
    requires RecentIsSuffix(v, chain)
    ensures RecentIsSuffix(Forwarded(v, b, tip), chain + [b])
  {
    var longer := chain + [b];
    var all := v.recent + [Point(b.slot, b.id)];
    assert forall i :: 0 <= i < |all| ==> all[i] == PointOf(longer[|longer| - |all| + i]);
  }

  lemma BackwardKeepsSuffix(v: View, chain: seq<Block>, keep: nat, cut: Option<nat>, tip: Option<nat>)
    requires RecentIsSuffix(v, chain) && CutsAt(chain, keep, cut)
    ensures RecentIsSuffix(Backed(v, cut, tip), chain[..keep])
    ensures |Backed(v, cut, tip).recent| == Max(0, keep - (|chain| - |v.recent|))
  {
    var start := |chain| - |v.recent|;
    var left := Max(0, keep - start);
    assert forall i :: 0 <= i < |v.recent| ==> v.recent[i].slot == chain[start + i].slot;
    UncutIsPrefix(v.recent, cut, left);
  }

  // ---------- refinement over every run ----------

  datatype Event =
    | Register(txId: string)
    | Unregister(txId: string)
    | Forward(block: Block, tip: Option<nat>)
    | Backward(keep: nat, cut: Option<nat>, tip: Option<nat>)

  /** The follower, the chain it has been told so far, and the watched ids that were registered when
      their transaction was already on that chain and have not left it since. */
  datatype Run = Run(view: View, chain: seq<Block>, late: set<string>)

  const START := Run(EMPTY_VIEW, [], {})

  ghost predicate Possible(r: Run, e: Event) {
    match e
    case Register(_) => true
    case Unregister(_) => true
    case Forward(b, _) => IsChain(r.chain + [b])
    case Backward(keep, cut, _) => CutsAt(r.chain, keep, cut)
  }

  ghost function Next(r: Run, e: Event): Run
    requires Possible(r, e)
  {
    match e
    case Register(txId) =>
      var id := Lower(txId);
      Run(WithWatch(r.view, txId), r.chain,
          if id !in r.view.watched && Lookup(r.chain, id).Included? then r.late + {id} else r.late)
    case Unregister(txId) => Run(WithoutWatch(r.view, txId), r.chain, r.late - {Lower(txId)})
    case Forward(b, tip) => Run(Forwarded(r.view, b, tip), r.chain + [b], r.late)
    case Backward(keep, cut, tip) =>
      Run(Backed(r.view, cut, tip), r.chain[..keep], set id | id in r.late && Lookup(r.chain[..keep], id).Included?)
  }

  ghost predicate Follows(r: Run, events: seq<Event>, t: Run)
    decreases |events|
  {
    if events == [] then r == t
    else Possible(r, events[0]) && Follows(Next(r, events[0]), events[1..], t)
  }

  ghost predicate Tracks(r: Run) {
    && IsChain(r.chain)
    && RecentIsSuffix(r.view, r.chain)
    && (forall id :: id in r.late ==> id in r.view.watched && Lookup(r.chain, id).Included? && r.view.watched[id] == Pending)
    && (forall id :: id in r.view.watched && id !in r.late ==> r.view.watched[id] == Lookup(r.chain, id))
  }

  lemma ForwardKeepsTracking(r: Run, b: Block, tip: Option<nat>)
    requires Tracks(r) && Possible(r, Forward(b, tip))
    ensures Tracks(Next(r, Forward(b, tip)))
  {
    var longer := r.chain + [b];
    ForwardKeepsSuffix(r.view, r.chain, b, tip);
    assert longer[..|longer| - 1] == r.chain;
    forall id | id in r.late
      ensures !b.Holds(id)
    {
      var i := LookupIsSomewhere(r.chain, id);
      assert Precedes(longer[i], longer[|longer| - 1]);
    }
  }

  lemma BackwardKeepsTracking(r: Run, keep: nat, cut: Option<nat>, tip: Option<nat>)
    requires Tracks(r) && Possible(r, Backward(keep, cut, tip))
    ensures Tracks(Next(r, Backward(keep, cut, tip)))
  {
    BackwardKeepsSuffix(r.view, r.chain, keep, cut, tip);
    PrefixIsChain(r.chain, keep);
    forall id | id in r.view.watched
      ensures RolledBack(Lookup(r.chain, id), cut) == Lookup(r.chain[..keep], id)
    {
      CuttingIsTruncating(r.chain, keep, cut, id);
    }
  }

  lemma StepKeepsTracking(r: Run, e: Event)
    requires Tracks(r) && Possible(r, e)
    ensures Tracks(Next(r, e))
  {
    match e {
      case Forward(b, tip) => ForwardKeepsTracking(r, b, tip);
      case Backward(keep, cut, tip) => BackwardKeepsTracking(r, keep, cut, tip);
      case Register(_) =>
      case Unregister(_) =>
    }
  }

  lemma {:induction false} RunKeepsTracking(r: Run, events: seq<Event>, t: Run)
    requires Tracks(r) && Follows(r, events, t)
    ensures Tracks(t)
    decreases |events|
  {
    if events != [] {
      StepKeepsTracking(r, events[0]);
      RunKeepsTracking(Next(r, events[0]), events[1..], t);
    }
  }

  /** After any run, the record of a watched transaction is what a search of the chain finds, exactly
      unless it was registered while already on chain. */
  lemma RecordIsLookupUnlessLate(events: seq<Event>, t: Run, id: string)
    requires Follows(START, events, t) && id in t.view.watched
    ensures t.view.watched[id] == Lookup(t.chain, id) <==> id !in t.late
  {
    RunKeepsTracking(START, events, t);
  }

  /** The depth reported is the tip's height minus the inclusion height plus one, at least one, and
      is reported exactly for a transaction that is on the chain. */
  lemma DepthCountsFromTheInclusion(events: seq<Event>, t: Run, txId: string)
    requires Follows(START, events, t)
    requires Lower(txId) in t.view.watched && Lower(txId) !in t.late
    ensures var status := StatusOf(t.view, txId);
            var found := Lookup(t.chain, Lower(txId));
            && status.Some?
            && (status.value.Confirmed? <==> found.Included?)
            && (status.value.Confirmed? ==>
                  && status.value.depth >= 1
                  && t.view.tipHeight.Some?
                  && (t.view.tipHeight.value >= found.height && t.view.tipHeight.value - found.height < U32_MAX ==>
                        status.value.depth == t.view.tipHeight.value - found.height + 1))
  {
    RunKeepsTracking(START, events, t);
    RunKnowsTheTip(START, events, t);
  }

  lemma {:induction false} RunKnowsTheTip(r: Run, events: seq<Event>, t: Run)
    requires Follows(r, events, t)
    requires r.chain != [] ==> r.view.tipHeight.Some?
    ensures t.chain != [] ==> t.view.tipHeight.Some?
    decreases |events|
  {
    if events != [] {
      RunKnowsTheTip(Next(r, events[0]), events[1..], t);
    }
  }

  // ---------- what was said last ----------

  /** What the events say of the tip, the last word counting: a rollback may say nothing, a block says at
      least its own height. */
  function TipSaid(events: seq<Event>): Option<nat> {
    if events == [] then None
    else
      var later := TipSaid(events[1..]);
      if later.Some? then later
      else
        match events[0]
        case Forward(b, tip) => Some(if tip.Some? && tip.value > b.height then tip.value else b.height)
        case Backward(_, _, tip) => tip
        case _ => None
  }

  /** Whether the id was registered and not withdrawn since. */
  function Registered(events: seq<Event>, id: string, before: bool): bool {
    if events == [] then before
    else Registered(events[1..], id,
                    match events[0]
                    case Register(txId) => before || Lower(txId) == id
                    case Unregister(txId) => before && Lower(txId) != id
                    case _ => before)
  }

  lemma {:induction false} LastWordCounts(r: Run, events: seq<Event>, t: Run, id: string)
    requires Follows(r, events, t)
    ensures t.view.tipHeight == (if TipSaid(events).Some? then TipSaid(events) else r.view.tipHeight)
    ensures id in t.view.watched <==> Registered(events, id, id in r.view.watched)
    decreases |events|
  {
    if events != [] {
      LastWordCounts(Next(r, events[0]), events[1..], t, id);
    }
  }

  /** The answer for any transaction id, after any run: none if it is not registered; unless it was registered
      too late, confirmed exactly if it is on the chain, and then as deep as the last tip said is above it. */
  lemma StatusIsExact(events: seq<Event>, t: Run, txId: string)
    requires Follows(START, events, t) && Lower(txId) !in t.late
    ensures var found := Lookup(t.chain, Lower(txId));
            var tip := TipSaid(events);
            StatusOf(t.view, txId) ==
              if !Registered(events, Lower(txId), false) then None
              else if found == Pending then Some(Unconfirmed)
              else
                var above: nat := if tip.Some? && tip.value > found.height then tip.value - found.height else 0;
                Some(Confirmed(if above + 1 > U32_MAX then U32_MAX else above + 1))
  {
    LastWordCounts(START, events, t, Lower(txId));
    RunKeepsTracking(START, events, t);
  }

  // ---------- reconnecting ----------

  lemma OfferedPoint(v: View, chain: seq<Block>, k: nat)
    requires RecentIsSuffix(v, chain) && k < |v.recent|
    ensures |Reversed(v.recent)| == |v.recent|
    ensures Reversed(v.recent)[k] == PointOf(chain[|chain| - 1 - k])
  {
  }

  lemma RunKeepsSuffix(events: seq<Event>, t: Run)
    requires Follows(START, events, t)
    ensures RecentIsSuffix(t.view, t.chain)
  {
    RunKeepsTracking(START, events, t);
  }

  lemma RunKeepsChain(events: seq<Event>, t: Run)
    requires Follows(START, events, t)
    ensures IsChain(t.chain)
  {
    RunKeepsTracking(START, events, t);
  }

  /** The offered points are the chain's newest, newest first. */
  lemma NewestPointIsOfferedFirst(events: seq<Event>, t: Run, k: nat)
    requires Follows(START, events, t) && k < |t.view.recent|
    ensures |Reversed(t.view.recent)| == |t.view.recent| <= |t.chain|
    ensures Reversed(t.view.recent)[k] == PointOf(t.chain[|t.chain| - 1 - k])
  {
    RunKeepsSuffix(events, t);
    OfferedPoint(t.view, t.chain, k);
  }

  lemma SlotCutsChain(chain: seq<Block>, k: nat)
    requires IsChain(chain) && k < |chain|
    ensures CutsAt(chain, |chain| - k, Some(chain[|chain| - 1 - k].slot))
  {
    var last := |chain| - 1 - k;
    forall i | 0 <= i < |chain|
      ensures chain[i].slot > chain[last].slot <==> i > last
    {
      if i < last {
        assert Precedes(chain[i], chain[last]);
      } else if last < i {
        assert Precedes(chain[last], chain[i]);
      }
    }
  }

  lemma PointsResume(v: View, chain: seq<Block>, k: nat, cut: Option<nat>, tip: Option<nat>)
    requires RecentIsSuffix(v, chain) && k < |v.recent| && CutsAt(chain, |chain| - k, cut)
    ensures Backed(v, cut, tip).recent == v.recent[..|v.recent| - k]
  {
    BackwardKeepsSuffix(v, chain, |chain| - k, cut, tip);
    var left, n := Backed(v, cut, tip).recent, |v.recent|;
    assert forall i :: 0 <= i < |left| ==> left[i] == v.recent[i];
  }

  lemma RunCutsAtSlots(events: seq<Event>, t: Run, k: nat)
    requires Follows(START, events, t) && k < |t.chain|
    ensures CutsAt(t.chain, |t.chain| - k, Some(t.chain[|t.chain| - 1 - k].slot))
  {
    RunKeepsChain(events, t);
    SlotCutsChain(t.chain, k);
  }

  lemma RollbackKeepsWatches(t: Run, keep: nat, cut: Option<nat>, tip: Option<nat>)
    requires Tracks(t) && CutsAt(t.chain, keep, cut)
    ensures WatchesAre(Next(t, Backward(keep, cut, tip)), t.chain[..keep])
  {
    BackwardKeepsTracking(t, keep, cut, tip);
  }

  ghost predicate WatchesAre(u: Run, chain: seq<Block>) {
    forall id :: id in u.view.watched && id !in u.late ==> u.view.watched[id] == Lookup(chain, id)
  }

  /** Reconnecting at any offered point, followed by the server's rollback to it, leaves the follower
      as if the chain had ended at that point: every watch is the search of the shorter chain, and
      the points are the old ones up to the one agreed on. */
  lemma ReconnectingResumesAtTheOfferedPoint(events: seq<Event>, t: Run, k: nat, tip: Option<nat>)
    requires Follows(START, events, t) && k < |t.view.recent|
    ensures k < |Reversed(t.view.recent)| && k < |t.chain|
    ensures var keep, cut := |t.chain| - k, Some(Reversed(t.view.recent)[k].slot);
            && Possible(t, Backward(keep, cut, tip))
            && var u := Next(t, Backward(keep, cut, tip));
               && u.chain == t.chain[..keep]
               && WatchesAre(u, u.chain)
               && u.view.recent == t.view.recent[..|t.view.recent| - k]
  {
    RunKeepsSuffix(events, t);
    OfferedPoint(t.view, t.chain, k);
    var cut := Some(t.chain[|t.chain| - 1 - k].slot);
    RunCutsAtSlots(events, t, k);
    assert WatchesAre(Next(t, Backward(|t.chain| - k, cut, tip)), t.chain[..|t.chain| - k]) by {
      RunKeepsTracking(START, events, t);
      RollbackKeepsWatches(t, |t.chain| - k, cut, tip);
    }
    PointsResume(t.view, t.chain, k, cut, tip);
  }
}
