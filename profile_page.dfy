/**
 * The logic of the profile dashboard (app/profile/page.tsx): expanding
 * and collapsing teams, the order of the "Upcoming Deadlines" list, and
 * the usage total with the running sums that place each pie slice.
 */
module ProfilePage {

  /** Toggling one id in a set of ids: the value `toggleTeam` produces. */
  function Toggled(s: set<int>, id: int): (r: set<int>)
    ensures id in r <==> id !in s
    ensures forall x :: x != id ==> (x in r <==> x in s)
  {
    if id in s then s - {id} else s + {id}
  }

  /** Toggling the same id twice gives back the set one started from. */
  lemma ToggleTwice(s: set<int>, id: int)
    ensures Toggled(Toggled(s, id), id) == s
  {
  }

  /** A JavaScript `Set<number>`: an object whose contents change in place. */
  class IdSet {
    var elems: set<int>

    /** `new Set()`. */
    constructor Empty()
      ensures elems == {}
    {
      elems := {};
    }

    /** `new Set(other)`: a fresh copy. */
    constructor Copy(other: IdSet)
      ensures elems == other.elems
    {
      elems := other.elems;
    }

    /** `set.has(x)`. */
    method Has(x: int) returns (b: bool)
      ensures b <==> x in elems
    {
      b := x in elems;
    }

    /** `set.add(x)`. */
    method Add(x: int)
      modifies this
      ensures elems == old(elems) + {x}
    {
      elems := elems + {x};
    }

    /** `set.delete(x)`. */
    method Delete(x: int)
      modifies this
      ensures elems == old(elems) - {x}
    {
      elems := elems - {x};
    }
  }

  /** The page's `expandedTeams` state. */
  class Dashboard {
    var expandedTeams: IdSet

    /** `useState<Set<number>>(new Set())`. */
    constructor ()
      ensures fresh(expandedTeams) && expandedTeams.elems == {}
    {
      expandedTeams := new IdSet.Empty();
    }

    /**
     * `toggleTeam(teamId)`: copy the current set, toggle `teamId` in the
     * copy, and make the copy the new state. The set that was the state
     * before is a different object and keeps its contents.
     */
    method ToggleTeam(teamId: int)
      modifies this
      ensures fresh(expandedTeams)
      ensures expandedTeams.elems == Toggled(old(expandedTeams.elems), teamId)
      ensures old(expandedTeams).elems == old(expandedTeams.elems)
    {
      var newExpanded := new IdSet.Copy(expandedTeams);
      var has := newExpanded.Has(teamId);
      if has {
        newExpanded.Delete(teamId);
      } else {
        newExpanded.Add(teamId);
      }
      expandedTeams := newExpanded;
    }
  }

  // ----- Upcoming deadlines -----

  datatype Priority = High | Medium | Low

  /** `priorityWeight`: high 3, medium 2, low 1. */
  function Weight(p: Priority): (w: int)
    ensures 1 <= w <= 3
  {
    match p
    case High => 3
    case Medium => 2
    case Low => 1
  }

  /** The weights rank high above medium above low. */
  lemma WeightOrder()
    ensures Weight(High) > Weight(Medium) > Weight(Low)
  {
  }

  /**
   * One deadline. `dueDate` is the ISO 8601 `YYYY-MM-DD` date read as the
   * number of its day, so that later dates are larger numbers.
   */
  datatype Deadline = Deadline(id: int, task: string, priority: Priority, dueDate: int, details: string)

  /**
   * The comparator given to `sort`: negative when `a` goes first,
   * positive when `b` goes first, zero when they tie.
   */
  function Compare(a: Deadline, b: Deadline): (c: int)
    ensures c < 0 <==> Weight(a.priority) > Weight(b.priority) || (a.priority == b.priority && a.dueDate < b.dueDate)
    ensures c == 0 <==> a.priority == b.priority && a.dueDate == b.dueDate
  {
    var priorityDiff := Weight(b.priority) - Weight(a.priority);
    if priorityDiff != 0 then priorityDiff else a.dueDate - b.dueDate
  }

  /** The intended order: higher priority first, then earlier due date. */
  predicate Before(a: Deadline, b: Deadline)
  {
    Weight(a.priority) > Weight(b.priority)
    || (a.priority == b.priority && a.dueDate <= b.dueDate)
  }

  /** The comparator says "not after" exactly when `Before` holds, and it is antisymmetric. */
  lemma CompareMeansBefore(a: Deadline, b: Deadline)
    ensures Compare(a, b) <= 0 <==> Before(a, b)
    ensures Compare(a, b) == -Compare(b, a)
  {
  }

  /** `Before` is a total preorder, so a list can be sorted by it. */
  lemma BeforeIsTotalPreorder(a: Deadline, b: Deadline, c: Deadline)
    ensures Before(a, a)
    ensures Before(a, b) || Before(b, a)
    ensures Before(a, b) && Before(b, c) ==> Before(a, c)
  {
  }

  ghost predicate Sorted(s: seq<Deadline>)
  {
    forall p, q :: 0 <= p < q < |s| ==> Before(s[p], s[q])
  }

  /**
   * In a sorted list every high deadline precedes every medium one, every
   * medium one every low one, and equal priorities are by due date.
   */
  lemma SortedMeansPriorityBands(s: seq<Deadline>, p: nat, q: nat)
    requires Sorted(s)
    requires p < |s| && q < |s|
    ensures s[p].priority == High && s[q].priority != High ==> p < q
    ensures s[p].priority == Medium && s[q].priority == Low ==> p < q
    ensures s[p].priority == s[q].priority && p < q ==> s[p].dueDate <= s[q].dueDate
  {
  }

  /**
   * `mockDeadlines.sort(compare)`, in place. The comparator's order is
   * total, so insertion sort gives the same result as any stable sort.
   */
  method SortDeadlines(a: array<Deadline>)
    modifies a
    ensures Sorted(a[..])
    ensures multiset(a[..]) == multiset(old(a[..]))
  {
    var i := 0;
    while i < a.Length
      invariant 0 <= i <= a.Length
      invariant Sorted(a[..i])
      invariant multiset(a[..]) == multiset(old(a[..]))
    {
      InsertAt(a, i);
      i := i + 1;
    }
    assert a[..] == a[..a.Length];
  }

  /** Moves `a[i]` left into the sorted prefix `a[..i]`, past every deadline that must follow it. */
  method InsertAt(a: array<Deadline>, i: nat)
    requires i < a.Length
    requires Sorted(a[..i])
    modifies a
    ensures Sorted(a[..i + 1])
    ensures multiset(a[..]) == multiset(old(a[..]))
  {
    var j := i;
    while j > 0 && Compare(a[j - 1], a[j]) > 0
      invariant 0 <= j <= i
      invariant forall p, q :: 0 <= p < q <= i && p != j && q != j ==> Before(a[p], a[q])
      invariant forall q :: j < q <= i ==> Before(a[j], a[q])
      invariant multiset(a[..]) == multiset(old(a[..]))
    {
      CompareMeansBefore(a[j - 1], a[j]);
      Swap(a, j - 1, j);
      j := j - 1;
    }
    if j > 0 {
      CompareMeansBefore(a[j - 1], a[j]);
      forall p | 0 <= p < j - 1
        ensures Before(a[p], a[j])
      {
        BeforeIsTotalPreorder(a[p], a[j - 1], a[j]);
      }
    }
  }

  /** Exchanges two elements of `a`, leaving the others alone. */
  method Swap(a: array<Deadline>, i: nat, j: nat)
    requires i < j < a.Length
    modifies a
    ensures a[i] == old(a[j]) && a[j] == old(a[i])
    ensures forall k :: 0 <= k < a.Length && k != i && k != j ==> a[k] == old(a[k])
    ensures multiset(a[..]) == multiset(old(a[..]))
  {
    a[i], a[j] := a[j], a[i];
  }

  // ----- Usage statistics -----

  /** One usage statistic. `name` is the `label` field (`label` is a reserved word in Dafny). */
  datatype UsageStat = UsageStat(name: string, value: int, color: string)

  /** `stats.reduce((sum, stat) => sum + stat.value, 0)`: a left fold from 0. */
  function Total(stats: seq<UsageStat>): (t: int)
    ensures (forall k :: 0 <= k < |stats| ==> stats[k].value >= 0) ==> t >= 0
  {
    if stats == [] then 0 else Total(stats[..|stats| - 1]) + stats[|stats| - 1].value
  }

  /** `prevTotal` of slice `index`: the sum of the values of the slices before it. */
  function PrevTotal(stats: seq<UsageStat>, index: nat): (p: int)
    requires index <= |stats|
    ensures (forall k :: 0 <= k < index ==> stats[k].value >= 0) ==> p >= 0
  {
    assert forall k :: 0 <= k < index ==> stats[..index][k] == stats[k];
    Total(stats[..index])
  }

  /** Each slice ends where the next one starts. */
  lemma {:induction false} PrevTotalStep(stats: seq<UsageStat>, index: nat)
    requires index < |stats|
    ensures PrevTotal(stats, index) + stats[index].value == PrevTotal(stats, index + 1)
  {
    assert stats[..index + 1][..index] == stats[..index];
  }

  /** The running sum after all the slices is the total. */
  lemma PrevTotalAll(stats: seq<UsageStat>)
    ensures PrevTotal(stats, |stats|) == Total(stats)
  {
    assert stats[..|stats|] == stats;
  }

  /**
   * With non-negative values, every slice ends at or before the total, and
   * the last slice ends exactly at it.
   */
  lemma {:induction false} SliceWithinTotal(stats: seq<UsageStat>, index: nat)
    requires index < |stats|
    requires forall k :: 0 <= k < |stats| ==> stats[k].value >= 0
    ensures 0 <= PrevTotal(stats, index)
    ensures PrevTotal(stats, index) + stats[index].value <= Total(stats)
    ensures index == |stats| - 1 ==> PrevTotal(stats, index) + stats[index].value == Total(stats)
  {
    PrevTotalStep(stats, index);
    PrevTotalAll(stats);
    assert forall k :: 0 <= k < index ==> stats[..index][k].value >= 0;
    var j := index + 1;
    while j < |stats|
      invariant index + 1 <= j <= |stats|
      invariant PrevTotal(stats, index) + stats[index].value <= PrevTotal(stats, j)
    {
      PrevTotalStep(stats, j);
      j := j + 1;
    }
  }
}
