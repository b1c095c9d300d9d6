/** The list of sleepers: each entry's delay counts from the entry before. */
module Delays {
  import opened Codes

  datatype Sleeper = Sleeper(pid: int, delay: int)

  /** How long a process has to sleep yet. */
  datatype Left = Never | In(ms: int)

  function Time(s: seq<Sleeper>, p: int): Left
  {
    if s == [] then Never
    else if s[0].pid == p then In(s[0].delay)
    else match Time(s[1..], p)
      case Never => Never
      case In(t) => In(s[0].delay + t)
  }

  /** Spends `x` along the list and puts the process before the first entry that lies further off. */
  function Insert(s: seq<Sleeper>, p: int, x: int): seq<Sleeper>
  {
    if s == [] then [Sleeper(p, x)]
    else if s[0].delay > x then [Sleeper(p, x), s[0].(delay := s[0].delay - x)] + s[1..]
    else [s[0]] + Insert(s[1..], p, x - s[0].delay)
  }

  /** Takes a process out; the entry behind it takes over its delay. */
  function Remove(s: seq<Sleeper>, p: int): seq<Sleeper>
  {
    if s == [] then []
    else if s[0].pid == p then (if |s| == 1 then [] else [s[1].(delay := s[1].delay + s[0].delay)] + s[2..])
    else [s[0]] + Remove(s[1..], p)
  }

  /** Splits off the entries at the front with no time left. */
  function Split(s: seq<Sleeper>): (r: (seq<int>, seq<Sleeper>))
  {
    if s == [] || s[0].delay > 0 then ([], s)
    else
      var (woken, rest) := Split(s[1..]);
      ([s[0].pid] + woken, rest)
  }

  /** One millisecond: the first delay goes down, and those with no time left wake. */
  function Tick(s: seq<Sleeper>): (r: (seq<int>, seq<Sleeper>))
  {
    if s == [] then ([], [])
    else
      var s1 := [s[0].(delay := s[0].delay - 1)] + s[1..];
      if s1[0].delay <= 0 then Split(s1) else ([], s1)
  }

  ghost predicate NonNegative(s: seq<Sleeper>)
  {
    forall i :: 0 <= i < |s| ==> s[i].delay >= 0
  }

  /** Between ticks every sleeper has some time left. */
  ghost predicate Ticking(s: seq<Sleeper>)
  {
    NonNegative(s) && (s != [] ==> s[0].delay > 0)
  }

  ghost predicate Distinct(s: seq<Sleeper>)
  {
    forall i, j :: 0 <= i < j < |s| ==> s[i].pid != s[j].pid
  }

  /** An insertion adds its own entry and disturbs no other. */
  lemma {:induction false} InsertTime(s: seq<Sleeper>, p: int, x: int, q: int)
    requires Time(s, p) == Never
    ensures Time(Insert(s, p, x), q) == if q == p then In(x) else Time(s, q)
  {
    if s != [] && s[0].delay > x {
      var r := Insert(s, p, x);
      assert r[1..] == [s[0].(delay := s[0].delay - x)] + s[1..];
      assert r[1..][1..] == s[1..];
    } else if s != [] {
      InsertTime(s[1..], p, x - s[0].delay, q);
      assert Insert(s, p, x)[1..] == Insert(s[1..], p, x - s[0].delay);
    }
  }

  lemma {:induction false} InsertTicking(s: seq<Sleeper>, p: int, x: int)
    requires NonNegative(s) && x >= 0
    ensures NonNegative(Insert(s, p, x))
    ensures Ticking(s) && x > 0 ==> Ticking(Insert(s, p, x))
  {
    if s != [] && s[0].delay <= x {
      InsertTicking(s[1..], p, x - s[0].delay);
    }
  }

  lemma TimeNever(s: seq<Sleeper>, p: int)
    ensures Time(s, p) == Never <==> forall i :: 0 <= i < |s| ==> s[i].pid != p
  {
    if s != [] {
      TimeNever(s[1..], p);
      assert forall i :: 0 < i < |s| ==> s[i] == s[1..][i - 1];
      assert forall i :: 0 <= i < |s| - 1 ==> s[1..][i] == s[i + 1];
    }
  }

  /** A removal takes one entry and disturbs no other. */
  lemma {:induction false} RemoveTime(s: seq<Sleeper>, p: int, q: int)
    requires Distinct(s)
    ensures Time(Remove(s, p), q) == if q == p then Never else Time(s, q)
  {
    if s != [] {
      TimeNever(s[1..], s[0].pid);
      if s[0].pid == p {
        if |s| > 1 {
          var r := Remove(s, p);
          assert r[1..] == s[2..] == s[1..][1..];
        }
      } else {
        RemoveTime(s[1..], p, q);
        assert Remove(s, p)[1..] == Remove(s[1..], p);
      }
    }
  }

  lemma {:induction false} RemoveTicking(s: seq<Sleeper>, p: int)
    requires NonNegative(s)
    ensures NonNegative(Remove(s, p)) && (Ticking(s) ==> Ticking(Remove(s, p)))
  {
    if s != [] && s[0].pid != p {
      RemoveTicking(s[1..], p);
    }
  }

  /** With no negative delays, splitting wakes just those with no time left and leaves the others theirs. */
  lemma {:induction false} SplitTime(s: seq<Sleeper>, q: int)
    requires Distinct(s) && NonNegative(s)
    ensures var (woken, rest) := Split(s);
            && (q in woken <==> Time(s, q).In? && Time(s, q).ms <= 0)
            && Time(rest, q) == (if Time(s, q).In? && Time(s, q).ms > 0 then Time(s, q) else Never)
            && Ticking(rest)
  {
    if s == [] || s[0].delay > 0 {
      LaterTime(s, q);
    } else {
      SplitTime(s[1..], q);
      TimeNever(s[1..], s[0].pid);
      SplitTime(s[1..], s[0].pid);
    }
  }

  /** Nobody wakes before the first. */
  lemma {:induction false} LaterTime(s: seq<Sleeper>, q: int)
    requires NonNegative(s)
    ensures Time(s, q).In? ==> s != [] && Time(s, q).ms >= s[0].delay
  {
    if s != [] && s[0].pid != q {
      LaterTime(s[1..], q);
    }
  }

  /** What a tick takes off everybody's time: a millisecond, unless the first entry had none left. */
  function Cost(s: seq<Sleeper>): (c: nat)
    ensures c <= 1
  {
    if s == [] || s[0].delay < 1 then 0 else 1
  }

  /** A tick takes its cost off everybody's time, wakes just those with no time left and keeps the rest. */
  lemma TickTime(s: seq<Sleeper>, q: int)
    requires Distinct(s) && NonNegative(s)
    ensures var (woken, rest) := Tick(s);
            && (q in woken <==> Time(s, q).In? && Time(s, q).ms <= Cost(s))
            && (if Time(s, q).In? && Time(s, q).ms > Cost(s) then Time(rest, q) == In(Time(s, q).ms - Cost(s))
                else Time(rest, q) == Never)
            && Ticking(rest)
  {
    if s != [] {
      var s1 := [s[0].(delay := s[0].delay - 1)] + s[1..];
      assert s1[1..] == s[1..];
      LaterTime(s, q);
      if s[0].delay <= 1 {
        SplitTime(s[1..], q);
        TimeNever(s[1..], s[0].pid);
        SplitTime(s[1..], s[0].pid);
      } else {
        LaterTime(s1, q);
      }
    }
  }

  /** A tick takes one millisecond off a sleeper exactly when the first entry had time left: a timed receive of
      0 ms, which puts a delay of 0 at the front, makes everyone behind it wait a tick longer. */
  lemma TickTakesOne(s: seq<Sleeper>, q: int)
    requires Distinct(s) && NonNegative(s) && Time(s, q).In? && Time(s, q).ms > 1
    ensures Time(Tick(s).1, q) == In(Time(s, q).ms - 1) <==> s[0].delay > 0
  {
    TickTime(s, q);
  }

  // --- the order of sleepers ---

  function Names(s: seq<Sleeper>): (r: seq<int>)
    ensures |r| == |s|
  {
    if s == [] then [] else [s[0].pid] + Names(s[1..])
  }

  /** The time of the i-th sleeper: all delays up to its own. */
  function TimeAt(s: seq<Sleeper>, i: nat): int
    requires i < |s|
  {
    if i == 0 then s[0].delay else s[0].delay + TimeAt(s[1..], i - 1)
  }

  lemma {:induction false} TimeAtIs(s: seq<Sleeper>, i: nat)
    requires Distinct(s) && i < |s|
    ensures Time(s, s[i].pid) == In(TimeAt(s, i)) && Names(s)[i] == s[i].pid
  {
    if i > 0 { TimeAtIs(s[1..], i - 1); }
  }

  /** One more in front of a list, seen from a place further back. */
  lemma PlaceBehind(h: int, l: seq<int>, m: nat, x: seq<int>, k: nat)
    requires m <= k <= |l|
    ensures [h] + (l[..m] + x + l[k..]) == ([h] + l)[..m + 1] + x + ([h] + l)[k + 1..]
  {
  }

  /** A new sleeper goes behind all whose time is no later than its own, and before all others. */
  lemma {:induction false} InsertOrder(s: seq<Sleeper>, p: int, x: int) returns (n: nat)
    requires NonNegative(s)
    ensures n <= |s| && Names(Insert(s, p, x)) == Names(s)[..n] + [p] + Names(s)[n..]
    ensures forall i :: 0 <= i < n ==> TimeAt(s, i) <= x
    ensures forall i :: n <= i < |s| ==> TimeAt(s, i) > x
  {
    n := 0;
    if s != [] && s[0].delay > x {
      InsertFront(s, p, x);
      forall i | 0 <= i < |s|
        ensures TimeAt(s, i) > x
      {
        TimeAtFirst(s, i);
      }
    } else if s != [] {
      var m := InsertOrder(s[1..], p, x - s[0].delay);
      n := m + 1;
      PlaceBehind(s[0].pid, Names(s[1..]), m, [p], m);
      assert Insert(s, p, x) == [s[0]] + Insert(s[1..], p, x - s[0].delay);
      NamesCons(s[0], Insert(s[1..], p, x - s[0].delay));
      hide Insert;
      forall i | 0 < i < |s|
        ensures TimeAt(s, i) == s[0].delay + TimeAt(s[1..], i - 1)
      {
      }
    }
  }

  lemma NamesCons(h: Sleeper, t: seq<Sleeper>)
    ensures Names([h] + t) == [h.pid] + Names(t)
  {
    assert ([h] + t)[1..] == t;
  }

  lemma InsertFront(s: seq<Sleeper>, p: int, x: int)
    requires s != [] && s[0].delay > x
    ensures Names(Insert(s, p, x)) == Names(s)[..0] + [p] + Names(s)[0..]
  {
    var t := [s[0].(delay := s[0].delay - x)] + s[1..];
    assert Insert(s, p, x) == [Sleeper(p, x)] + t;
    NamesCons(Sleeper(p, x), t);
    NamesCons(s[0].(delay := s[0].delay - x), s[1..]);
  }

  lemma {:induction false} TimeAtFirst(s: seq<Sleeper>, i: nat)
    requires NonNegative(s) && i < |s|
    ensures TimeAt(s, i) >= s[0].delay
  {
    if i > 0 { TimeAtFirst(s[1..], i - 1); }
  }

  /** Those that a tick wakes are the first of the list, in order. */
  lemma TickOrder(s: seq<Sleeper>)
    ensures Names(s) == Tick(s).0 + Names(Tick(s).1)
  {
    if s != [] {
      var s1 := [s[0].(delay := s[0].delay - 1)] + s[1..];
      NamesCons(s1[0], s[1..]);
      SplitOrder(s1);
      hide Split;
    }
  }

  lemma {:induction false} SplitOrder(s: seq<Sleeper>)
    ensures Names(s) == Split(s).0 + Names(Split(s).1)
  {
    if s != [] && s[0].delay <= 0 {
      SplitOrder(s[1..]);
      var (woken, rest) := Split(s[1..]);
      assert Split(s) == ([s[0].pid] + woken, rest);
      assert Names(s) == [s[0].pid] + Names(s[1..]);
      hide Split, Names;
      assert [s[0].pid] + (woken + Names(rest)) == [s[0].pid] + woken + Names(rest);
    }
  }

  /** Those that stay when one is taken out keep their order. */
  lemma {:induction false} RemoveOrder(s: seq<Sleeper>, p: int) returns (n: nat)
    ensures n <= |s| && forall i :: 0 <= i < n ==> Names(s)[i] != p
    ensures n < |s| ==> Names(s)[n] == p && Names(Remove(s, p)) == Names(s)[..n] + [] + Names(s)[n + 1..]
    ensures n == |s| ==> Remove(s, p) == s
  {
    n := 0;
    if s != [] && s[0].pid == p {
      if |s| > 1 { NamesCons(s[1].(delay := s[1].delay + s[0].delay), s[2..]); }
    } else if s != [] {
      var m := RemoveOrder(s[1..], p);
      n := m + 1;
      assert Remove(s, p) == [s[0]] + Remove(s[1..], p);
      NamesCons(s[0], Remove(s[1..], p));
      hide Remove;
      assert Names(s) == [s[0].pid] + Names(s[1..]);
      if m < |s| - 1 { PlaceBehind(s[0].pid, Names(s[1..]), m, [], m + 1); }
    }
  }

  // --- in words of 32 bits ---

  function Total(s: seq<Sleeper>): int
  {
    if s == [] then 0 else s[0].delay + Total(s[1..])
  }

  /** All delays, and their sum, are signed words that are not negative. */
  ghost predicate Fits(s: seq<Sleeper>)
  {
    NonNegative(s) && Total(s) <= MAXINT
  }

  /** The delays add up to no more than they did, or than the new one. */
  lemma {:induction false} InsertFits(s: seq<Sleeper>, p: int, x: int)
    requires NonNegative(s) && x >= 0
    ensures NonNegative(Insert(s, p, x)) && Total(Insert(s, p, x)) == if x > Total(s) then x else Total(s)
    ensures Total(s) >= 0
  {
    InsertTicking(s, p, x);
    if s != [] {
      TotalTail(s);
      if s[0].delay > x {
        var r := [s[0].(delay := s[0].delay - x)] + s[1..];
        assert r[1..] == s[1..] && Insert(s, p, x)[1..] == r;
      } else {
        InsertFits(s[1..], p, x - s[0].delay);
        assert Insert(s, p, x)[1..] == Insert(s[1..], p, x - s[0].delay);
      }
    }
  }

  lemma {:induction false} TotalTail(s: seq<Sleeper>)
    requires NonNegative(s)
    ensures Total(s) >= 0
    ensures s != [] ==> NonNegative(s[1..]) && Total(s) == s[0].delay + Total(s[1..]) && 0 <= s[0].delay <= Total(s)
    ensures |s| > 1 ==> s[0].delay + s[1].delay <= Total(s)
  {
    if s != [] {
      TotalTail(s[1..]);
    }
  }

  lemma {:induction false} RemoveFits(s: seq<Sleeper>, p: int)
    requires NonNegative(s)
    ensures NonNegative(Remove(s, p)) && Total(Remove(s, p)) <= Total(s)
  {
    RemoveTicking(s, p);
    TotalTail(s);
    if s != [] {
      if s[0].pid != p {
        RemoveFits(s[1..], p);
        assert Remove(s, p)[1..] == Remove(s[1..], p);
      } else if |s| > 1 {
        assert Remove(s, p)[1..] == s[1..][1..];
      }
    }
  }

  lemma {:induction false} SplitFits(s: seq<Sleeper>)
    requires NonNegative(s)
    ensures NonNegative(Split(s).1) && Total(Split(s).1) <= Total(s)
  {
    TotalTail(s);
    if s != [] && s[0].delay <= 0 {
      SplitFits(s[1..]);
    }
  }

  lemma TickFits(s: seq<Sleeper>)
    requires NonNegative(s)
    ensures NonNegative(Tick(s).1) && Total(Tick(s).1) <= Total(s)
  {
    TotalTail(s);
    if s != [] {
      var s1 := [s[0].(delay := s[0].delay - 1)] + s[1..];
      assert s1[1..] == s[1..];
      SplitFits(s[1..]);
    }
  }

  lemma {:induction false} InsertDistinct(s: seq<Sleeper>, p: int, x: int)
    requires Distinct(s) && Time(s, p) == Never
    ensures Distinct(Insert(s, p, x))
    ensures forall q :: q != p ==> (Time(Insert(s, p, x), q) == Never <==> Time(s, q) == Never)
  {
    forall q | q != p
      ensures Time(Insert(s, p, x), q) == Never <==> Time(s, q) == Never
    {
      InsertTime(s, p, x, q);
    }
    TimeNever(s, p);
    hide Time;
    if s != [] && s[0].delay <= x {
      var r := Insert(s[1..], p, x - s[0].delay);
      TimeNever(s[1..], p);
      assert forall i :: 0 < i < |s| ==> s[i] == s[1..][i - 1];
      assert forall i :: 0 <= i < |s| - 1 ==> s[1..][i] == s[i + 1];
      InsertDistinct(s[1..], p, x - s[0].delay);
      TimeNever(s[1..], s[0].pid);
      TimeNever(r, s[0].pid);
      assert Insert(s, p, x) == [s[0]] + r;
      hide Insert;
    }
  }

  lemma {:induction false} RemoveDistinct(s: seq<Sleeper>, p: int)
    requires Distinct(s)
    ensures Distinct(Remove(s, p))
  {
    if s != [] && s[0].pid != p {
      RemoveDistinct(s[1..], p);
      TimeNever(s[1..], s[0].pid);
      RemoveTime(s[1..], p, s[0].pid);
      TimeNever(Remove(s[1..], p), s[0].pid);
    }
  }

  lemma {:induction false} SplitDistinct(s: seq<Sleeper>)
    requires Distinct(s)
    ensures Distinct(Split(s).1)
  {
    if s != [] && s[0].delay <= 0 {
      SplitDistinct(s[1..]);
    }
  }

  datatype Event = Sleep(p: int, ms: int) | Wake(p: int) | Passing

  function After(s: seq<Sleeper>, e: Event): seq<Sleeper>
  {
    match e
    case Sleep(p, ms) => Insert(s, p, ms)
    case Wake(p) => Remove(s, p)
    case Passing => Tick(s).1
  }

  function AfterAll(s: seq<Sleeper>, es: seq<Event>): seq<Sleeper>
  {
    if es == [] then s else After(AfterAll(s, es[..|es| - 1]), es[|es| - 1])
  }

  /** Only a process that is awake goes to sleep, and for a time that a signed word can tell. */
  ghost predicate Allowed(s: seq<Sleeper>, es: seq<Event>)
  {
    es == [] ||
    (var n := |es| - 1;
     Allowed(s, es[..n])
     && (es[n].Sleep? ==> Time(AfterAll(s, es[..n]), es[n].p) == Never && 0 <= es[n].ms <= MAXINT))
  }

  function Ticks(es: seq<Event>): nat
  {
    if es == [] then 0 else Ticks(es[..|es| - 1]) + if es[|es| - 1].Passing? then 1 else 0
  }

  /** What all ticks together took off the time of those who slept throughout. */
  function Spent(s: seq<Sleeper>, es: seq<Event>): int
  {
    if es == [] then 0
    else
      var n := |es| - 1;
      Spent(s, es[..n]) + if es[n].Passing? then Cost(AfterAll(s, es[..n])) else 0
  }

  /** No tick finds the first entry with no time left. */
  predicate Full(s: seq<Sleeper>, es: seq<Event>)
  {
    es == [] ||
    (var n := |es| - 1;
     Full(s, es[..n]) && (es[n].Passing? ==> Cost(AfterAll(s, es[..n])) == 1))
  }

  /** After none of the ticks had `n` milliseconds been spent. */
  predicate Outlasts(s: seq<Sleeper>, es: seq<Event>, n: int)
  {
    es == [] || (Outlasts(s, es[..|es| - 1], n) && (es[|es| - 1].Passing? ==> Spent(s, es) < n))
  }

  lemma {:induction false} AfterAllFits(s: seq<Sleeper>, es: seq<Event>)
    requires Fits(s) && Distinct(s) && Allowed(s, es)
    ensures Fits(AfterAll(s, es)) && Distinct(AfterAll(s, es))
  {
    if es != [] {
      var n := |es| - 1;
      var t := AfterAll(s, es[..n]);
      AfterAllFits(s, es[..n]);
      match es[n] {
        case Sleep(p, ms) => InsertFits(t, p, ms); InsertDistinct(t, p, ms);
        case Wake(p) => RemoveFits(t, p); RemoveDistinct(t, p);
        case Passing =>
          TickFits(t);
          if t != [] { SplitDistinct([t[0].(delay := t[0].delay - 1)] + t[1..]); }
      }
    }
  }

  /** A sleeper with `n` milliseconds left that nobody wakes has left what the ticks have not spent ... */
  lemma {:induction false} SleepsOn(s: seq<Sleeper>, es: seq<Event>, p: int, n: int)
    requires Fits(s) && Distinct(s) && Allowed(s, es)
    requires Time(s, p) == In(n) && Wake(p) !in es && Outlasts(s, es, n)
    ensures Time(AfterAll(s, es), p) == In(n - Spent(s, es))
  {
    if es != [] {
      var i := |es| - 1;
      var t := AfterAll(s, es[..i]);
      AfterAllFits(s, es[..i]);
      SleepsOn(s, es[..i], p, n);
      match es[i] {
        case Sleep(q, ms) => InsertTime(t, q, ms, p);
        case Wake(q) => RemoveTime(t, q, p);
        case Passing => TickTime(t, p);
      }
    }
  }

  /** Ticks spend no more than a millisecond each, and all of that just when none finds the first entry with no
      time left. */
  lemma {:induction false} SpentAtMost(s: seq<Sleeper>, es: seq<Event>)
    ensures Spent(s, es) <= Ticks(es)
    ensures Spent(s, es) == Ticks(es) <==> Full(s, es)
  {
    if es != [] {
      SpentAtMost(s, es[..|es| - 1]);
    }
  }

  lemma OneMoreTick(s: seq<Sleeper>, es: seq<Event>)
    ensures Spent(s, es + [Passing]) == Spent(s, es) + Cost(AfterAll(s, es)) && Ticks(es + [Passing]) == Ticks(es) + 1
  {
    assert (es + [Passing])[..|es|] == es;
  }

  /** ... and wakes on exactly the tick after which `n` are spent. That is the n-th tick if and only if none found
      the first entry with no time left; otherwise a later one. The others that wake are those with as little left. */
  lemma WakesOnTime(s: seq<Sleeper>, es: seq<Event>, p: int, n: int)
    requires Fits(s) && Distinct(s) && Allowed(s, es)
    requires Time(s, p) == In(n) && Wake(p) !in es && Outlasts(s, es, n)
    ensures p in Tick(AfterAll(s, es)).0 <==> Spent(s, es + [Passing]) >= n
    ensures p in Tick(AfterAll(s, es)).0 && n > 0 ==>
              && Ticks(es + [Passing]) >= n
              && (Ticks(es + [Passing]) == n <==> Full(s, es + [Passing]))
    ensures forall q :: q in Tick(AfterAll(s, es)).0 <==> Time(AfterAll(s, es), q) == In(Cost(AfterAll(s, es)))
  {
    var t := AfterAll(s, es);
    AfterAllFits(s, es);
    SleepsOn(s, es, p, n);
    TickTime(t, p);
    OneMoreTick(s, es);
    SpentAtMost(s, es + [Passing]);
    if n > 0 { OutlastsSpent(s, es, n); }
    forall q
      ensures q in Tick(t).0 <==> Time(t, q) == In(Cost(t))
    {
      TickTime(t, q);
      LaterTime(t, q);
    }
  }

  /** A delay that is not spent after any tick is not spent at all yet. */
  lemma {:induction false} OutlastsSpent(s: seq<Sleeper>, es: seq<Event>, n: int)
    requires Outlasts(s, es, n) && n > 0
    ensures Spent(s, es) < n
  {
    if es != [] && !es[|es| - 1].Passing? {
      OutlastsSpent(s, es[..|es| - 1], n);
    }
  }

  /** Every sleep is for at least a millisecond. */
  predicate Positive(es: seq<Event>)
  {
    forall i :: 0 <= i < |es| && es[i].Sleep? ==> es[i].ms > 0
  }

  /** Then no tick, while somebody sleeps, finds the first entry with no time left. */
  lemma {:induction false} PositiveTicking(s: seq<Sleeper>, es: seq<Event>)
    requires Ticking(s) && Distinct(s) && Allowed(s, es) && Positive(es)
    ensures Ticking(AfterAll(s, es)) && Distinct(AfterAll(s, es))
  {
    if es != [] {
      var n := |es| - 1;
      var t := AfterAll(s, es[..n]);
      PositiveTicking(s, es[..n]);
      match es[n] {
        case Sleep(p, ms) => InsertTicking(t, p, ms); InsertDistinct(t, p, ms);
        case Wake(p) => RemoveTicking(t, p); RemoveDistinct(t, p);
        case Passing =>
          TickTime(t, 0);
          if t != [] { SplitDistinct([t[0].(delay := t[0].delay - 1)] + t[1..]); }
      }
    }
  }

  /** With positive sleeps only, a sleeper of `n` milliseconds that nobody wakes sleeps for exactly `n` ticks. */
  lemma {:induction false} PositiveFull(s: seq<Sleeper>, es: seq<Event>, p: int, n: int)
    requires Ticking(s) && Fits(s) && Distinct(s) && Allowed(s, es) && Positive(es)
    requires Time(s, p) == In(n) && Wake(p) !in es && Ticks(es) < n
    ensures Full(s, es) && Outlasts(s, es, n) && Spent(s, es) == Ticks(es) && Full(s, es + [Passing])
  {
    assert (es + [Passing])[..|es|] == es;
    if es != [] {
      PositiveFull(s, es[..|es| - 1], p, n);
      assert (es[..|es| - 1] + [Passing])[..|es| - 1] == es[..|es| - 1];
    }
    SpentAtMost(s, es);
    SleepsOn(s, es, p, n);
    PositiveTicking(s, es);
  }
}
