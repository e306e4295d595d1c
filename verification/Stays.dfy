/** The stays of a token in memory along an ordered feed of events and clock ticks: a stay begins with an event
    of a token not in memory, and ends with the first tick at the token's cold age. */
module Stays {
  import opened Amounts
  import opened Schedule
  import opened Domain
  import opened Rolling
  import opened StateEngine
  import opened Replay

  datatype Feed = Arrives(event: Event) | TicksTo(time: Time)

  /** `b` comes after `a`: an event is never before an earlier event in the event order, and never before an
      earlier event of its token or an earlier tick in time. */
  predicate Follows(a: Feed, b: Feed) {
    b.Arrives? ==>
      match a
      case TicksTo(t) => t <= b.event.time
      case Arrives(e) =>
        && !Less(FromCanonical(b.event), FromCanonical(e))
        && (KeyOf(e) == KeyOf(b.event) ==> e.time <= b.event.time)
  }

  predicate WellTimed(feed: seq<Feed>) {
    && (forall i, j :: 0 <= i < j < |feed| ==> Follows(feed[i], feed[j]))
    && (forall i :: 0 <= i < |feed| && feed[i].Arrives? ==> feed[i].event.token != "")
  }

  predicate About(f: Feed, k: TokenKey) {
    f.Arrives? && KeyOf(f.event) == Some(k)
  }

  function Arrived(feed: seq<Feed>): seq<Event> {
    if feed == [] then []
    else Arrived(Butlast(feed)) + if Last(feed).Arrives? then [Last(feed).event] else []
  }

  // ---------------------------------------------------------------- stays

  /** From its first event to its eviction: the last time asked for, and the token's events meanwhile. */
  datatype Stay = Stay(discovered: Time, latest: Time, own: seq<Event>, gone: bool)

  function Extended(stays: seq<Stay>, e: Event): seq<Stay> {
    if stays == [] || Last(stays).gone then stays + [Stay(e.time, e.time, [e], false)]
    else Butlast(stays) + [Last(stays).(latest := Later(Last(stays).latest, e.time), own := Last(stays).own + [e])]
  }

  function TickedTo(stays: seq<Stay>, t: Time, cold: I64): seq<Stay> {
    if stays == [] || Last(stays).gone then stays
    else
      Butlast(stays)
      + [Last(stays).(latest := Later(Last(stays).latest, t), gone := Saturate(t - Last(stays).discovered) >= cold)]
  }

  function Stepped(stays: seq<Stay>, f: Feed, k: TokenKey, cold: I64): seq<Stay> {
    match f
    case Arrives(e) => if KeyOf(e) == Some(k) then Extended(stays, e) else stays
    case TicksTo(t) => TickedTo(stays, t, cold)
  }

  function StaysOf(feed: seq<Feed>, k: TokenKey, cold: I64): seq<Stay> {
    if feed == [] then [] else Stepped(StaysOf(Butlast(feed), k, cold), Last(feed), k, cold)
  }

  lemma StaysStep(feed: seq<Feed>, i: nat, k: TokenKey, cold: I64)
    requires i < |feed|
    ensures StaysOf(feed[..i + 1], k, cold) == Stepped(StaysOf(feed[..i], k, cold), feed[i], k, cold)
  {
    hide Stepped;
    assert Butlast(feed[..i + 1]) == feed[..i];
  }

  predicate NoneLater(stays: seq<Stay>, t: Time) {
    forall i :: 0 <= i < |stays| ==> stays[i].latest <= t
  }

  lemma StepNotPast(stays: seq<Stay>, f: Feed, k: TokenKey, cold: I64, t: Time)
    requires NoneLater(stays, t)
    requires match f case Arrives(e) => (KeyOf(e) == Some(k) ==> e.time <= t) case TicksTo(u) => u <= t
    ensures NoneLater(Stepped(stays, f, k, cold), t)
  {
    hide KeyOf;
  }

  /** Nothing still to come for the token is before the last time any of its stays was asked for. */
  lemma {:induction false} NothingEarlier(feed: seq<Feed>, i: nat, k: TokenKey, cold: I64, n: nat)
    requires WellTimed(feed) && i <= n < |feed| && About(feed[n], k)
    ensures NoneLater(StaysOf(feed[..i], k, cold), feed[n].event.time)
  {
    hide KeyOf, Less, FromCanonical, Stepped, StaysOf, NoneLater;
    if i > 0 {
      StaysStep(feed, i - 1, k, cold);
      assert Follows(feed[i - 1], feed[n]);
      hide WellTimed;
      NothingEarlier(feed, i - 1, k, cold, n);
      StepNotPast(StaysOf(feed[..i - 1], k, cold), feed[i - 1], k, cold, feed[n].event.time);
    } else {
      NoneYet(feed, 0, k, cold);
      NothingIsLater(feed[n].event.time);
    }
  }

  lemma NothingIsLater(t: Time)
    ensures NoneLater([], t)
  {
  }

  // ---------------------------------------------------------------- one stay after the other

  /** A stay that is over, and was asked for nothing after the other's events. */
  predicate Precedes(a: Stay, b: Stay) {
    a.gone && forall e :: e in b.own ==> a.latest <= e.time
  }

  predicate InSuccession(stays: seq<Stay>) {
    forall i, j :: 0 <= i < j < |stays| ==> Precedes(stays[i], stays[j])
  }

  lemma ExtendedSucceeds(stays: seq<Stay>, e: Event)
    requires InSuccession(stays) && NoneLater(stays, e.time)
    ensures InSuccession(Extended(stays, e))
  {
  }

  lemma TickedSucceeds(stays: seq<Stay>, t: Time, cold: I64)
    requires InSuccession(stays)
    ensures InSuccession(TickedTo(stays, t, cold))
  {
  }

  lemma {:induction false} StaysSucceed(feed: seq<Feed>, i: nat, k: TokenKey, cold: I64)
    requires WellTimed(feed) && i <= |feed|
    ensures InSuccession(StaysOf(feed[..i], k, cold))
  {
    hide KeyOf, WellTimed, StaysOf, Extended, TickedTo, InSuccession;
    if i > 0 {
      var before := StaysOf(feed[..i - 1], k, cold);
      StaysSucceed(feed, i - 1, k, cold);
      StaysStep(feed, i - 1, k, cold);
      match feed[i - 1]
      case TicksTo(t) => TickedSucceeds(before, t, cold);
      case Arrives(e) =>
        if KeyOf(e) == Some(k) {
          NothingEarlier(feed, i - 1, k, cold, i - 1);
          ExtendedSucceeds(before, e);
        }
    } else {
      NoneYet(feed, 0, k, cold);
      NobodySucceeds();
    }
  }

  lemma NobodySucceeds()
    ensures InSuccession([])
  {
  }

  // ---------------------------------------------------------------- every event belongs to one stay

  function OwnEvents(stays: seq<Stay>): seq<Event> {
    if stays == [] then [] else OwnEvents(Butlast(stays)) + Last(stays).own
  }

  predicate BeginWithOwn(stays: seq<Stay>) {
    forall i :: 0 <= i < |stays| ==> stays[i].own != [] && stays[i].discovered == stays[i].own[0].time
  }

  lemma OwnStep(front: seq<Stay>, s: Stay)
    ensures OwnEvents(front + [s]) == OwnEvents(front) + s.own
  {
    assert Butlast(front + [s]) == front;
  }

  lemma ExtendedOwn(stays: seq<Stay>, e: Event)
    requires BeginWithOwn(stays)
    ensures OwnEvents(Extended(stays, e)) == OwnEvents(stays) + [e] && BeginWithOwn(Extended(stays, e))
  {
    if stays == [] || Last(stays).gone {
      OwnStep(stays, Stay(e.time, e.time, [e], false));
    } else {
      OwnStep(Butlast(stays), Last(Extended(stays, e)));
    }
  }

  lemma TickedOwn(stays: seq<Stay>, t: Time, cold: I64)
    requires BeginWithOwn(stays)
    ensures OwnEvents(TickedTo(stays, t, cold)) == OwnEvents(stays) && BeginWithOwn(TickedTo(stays, t, cold))
  {
    if stays != [] && !Last(stays).gone {
      OwnStep(Butlast(stays), Last(TickedTo(stays, t, cold)));
    }
  }

  /** The stays share out the token's events, all of them, in their order. */
  lemma {:induction false} StaysShareEvents(feed: seq<Feed>, k: TokenKey, cold: I64)
    ensures OwnEvents(StaysOf(feed, k, cold)) == EventsOf(Arrived(feed), k)
    ensures BeginWithOwn(StaysOf(feed, k, cold))
  {
    hide KeyOf, EventsOf, OwnEvents, BeginWithOwn, Extended, TickedTo;
    if feed == [] {
      NoOwn(k);
    } else {
      var before, seen := StaysOf(Butlast(feed), k, cold), Arrived(Butlast(feed));
      StaysShareEvents(Butlast(feed), k, cold);
      match Last(feed)
      case TicksTo(t) =>
        assert seen + [] == seen;
        TickedOwn(before, t, cold);
      case Arrives(e) =>
        EventsAppend(seen, k, e);
        assert EventsOf(seen, k) + [] == EventsOf(seen, k);
        ExtendedOwn(before, e);
    }
  }

  lemma NoOwn(k: TokenKey)
    ensures OwnEvents([]) == EventsOf([], k) == [] && BeginWithOwn([])
  {
  }

  // ---------------------------------------------------------------- when there is one stay

  /** No tick at or past the cold age comes between two events of the token. */
  predicate NeverReturns(feed: seq<Feed>, k: TokenKey, cold: I64) {
    forall f, j, n :: 0 <= f < j < n < |feed| && About(feed[f], k) && feed[j].TicksTo? && About(feed[n], k) ==>
      Saturate(feed[j].time - feed[f].event.time) < cold
  }

  /** A tick finds the token of event `f` past its cold age. */
  predicate ColdAt(feed: seq<Feed>, f: nat, j: nat, cold: I64)
    requires f < |feed| && feed[f].Arrives?
  {
    f < j < |feed| && feed[j].TicksTo? && Saturate(feed[j].time - feed[f].event.time) >= cold
  }

  ghost predicate WentCold(feed: seq<Feed>, f: nat, i: nat, cold: I64)
    requires f < |feed| && feed[f].Arrives?
  {
    exists j: nat :: j < i && ColdAt(feed, f, j, cold)
  }

  /** ... and an event of the token has come since. */
  ghost predicate CameBack(feed: seq<Feed>, f: nat, i: nat, k: TokenKey, cold: I64)
    requires f < |feed| && feed[f].Arrives? && i <= |feed|
  {
    exists j: nat, n: nat :: j < n < i && ColdAt(feed, f, j, cold) && About(feed[n], k)
  }

  predicate IsFirst(feed: seq<Feed>, f: nat, k: TokenKey) {
    f < |feed| && About(feed[f], k) && forall g :: 0 <= g < f ==> !About(feed[g], k)
  }

  lemma {:induction false} NoneYet(feed: seq<Feed>, i: nat, k: TokenKey, cold: I64)
    requires i <= |feed| && forall g :: 0 <= g < i ==> !About(feed[g], k)
    ensures StaysOf(feed[..i], k, cold) == []
  {
    if i > 0 {
      NoneYet(feed, i - 1, k, cold);
      StaysStep(feed, i - 1, k, cold);
    }
  }

  lemma ColdStep(feed: seq<Feed>, f: nat, i: nat, k: TokenKey, cold: I64)
    requires f < |feed| && feed[f].Arrives? && i < |feed|
    ensures WentCold(feed, f, i + 1, cold) <==> WentCold(feed, f, i, cold) || ColdAt(feed, f, i, cold)
    ensures CameBack(feed, f, i + 1, k, cold)
      <==> CameBack(feed, f, i, k, cold) || (WentCold(feed, f, i, cold) && About(feed[i], k))
  {
    hide ColdAt, About;
    if WentCold(feed, f, i + 1, cold) {
      var j: nat :| j < i + 1 && ColdAt(feed, f, j, cold);
    }
    if CameBack(feed, f, i + 1, k, cold) {
      var j: nat, n: nat :| j < n < i + 1 && ColdAt(feed, f, j, cold) && About(feed[n], k);
      if n < i { assert CameBack(feed, f, i, k, cold); }
    }
  }

  /** The stays so far, after the first event of the token. */
  lemma {:induction false} SinceFirst(feed: seq<Feed>, f: nat, i: nat, k: TokenKey, cold: I64)
    requires IsFirst(feed, f, k) && f < i <= |feed|
    ensures var stays := StaysOf(feed[..i], k, cold);
      && stays != [] && (|stays| == 1 <==> !CameBack(feed, f, i, k, cold))
      && (|stays| == 1 ==> stays[0].discovered == feed[f].event.time && (stays[0].gone <==> WentCold(feed, f, i, cold)))
  {
    hide StaysOf, KeyOf;
    StaysStep(feed, i - 1, k, cold);
    ColdStep(feed, f, i - 1, k, cold);
    if i == f + 1 {
      NoneYet(feed, f, k, cold);
      assert !WentCold(feed, f, f, cold) && !CameBack(feed, f, f, k, cold);
    } else {
      SinceFirst(feed, f, i - 1, k, cold);
      hide WentCold, CameBack, IsFirst;
    }
  }

  lemma FirstIsThere(feed: seq<Feed>, n: nat, k: TokenKey) returns (f: nat)
    requires n < |feed| && About(feed[n], k)
    ensures IsFirst(feed, f, k) && f <= n
  {
    hide About;
    f := 0;
    while !About(feed[f], k)
      invariant f <= n && forall g :: 0 <= g < f ==> !About(feed[g], k)
      decreases n - f
    {
      f := f + 1;
    }
  }

  lemma FirstIsEarliest(feed: seq<Feed>, f: nat, g: nat, k: TokenKey)
    requires WellTimed(feed) && IsFirst(feed, f, k) && g < |feed| && About(feed[g], k)
    ensures f <= g && feed[f].event.time <= feed[g].event.time
  {
    hide Less, FromCanonical, KeyOf;
    if f < g { assert Follows(feed[f], feed[g]); }
  }

  lemma ReturnAt(feed: seq<Feed>, f: nat, g: nat, j: nat, n: nat, k: TokenKey, cold: I64)
    requires WellTimed(feed) && IsFirst(feed, f, k)
    requires g < j < n < |feed| && About(feed[g], k) && ColdAt(feed, g, j, cold) && About(feed[n], k)
    ensures CameBack(feed, f, |feed|, k, cold)
  {
    hide WellTimed, KeyOf;
    FirstIsEarliest(feed, f, g, k);
    assert ColdAt(feed, f, j, cold);
  }

  lemma CameBackIsReturn(feed: seq<Feed>, f: nat, k: TokenKey, cold: I64)
    requires WellTimed(feed) && IsFirst(feed, f, k)
    ensures CameBack(feed, f, |feed|, k, cold) <==> !NeverReturns(feed, k, cold)
  {
    hide WellTimed, KeyOf;
    if !NeverReturns(feed, k, cold) {
      var g, j, n :| 0 <= g < j < n < |feed| && About(feed[g], k) && feed[j].TicksTo? && About(feed[n], k)
        && Saturate(feed[j].time - feed[g].event.time) >= cold;
      hide NeverReturns, CameBack;
      assert ColdAt(feed, g, j, cold);
      ReturnAt(feed, f, g, j, n, k, cold);
    }
    if CameBack(feed, f, |feed|, k, cold) {
      var j: nat, n: nat :| j < n < |feed| && ColdAt(feed, f, j, cold) && About(feed[n], k);
    }
  }

  /** A token has at most one stay exactly when it never returns; and one stay begins with its first event and
      has all its events. */
  lemma OneStayExactly(feed: seq<Feed>, k: TokenKey, cold: I64)
    requires WellTimed(feed)
    ensures |StaysOf(feed, k, cold)| <= 1 <==> NeverReturns(feed, k, cold)
    ensures |StaysOf(feed, k, cold)| == 1 ==> var s, own := StaysOf(feed, k, cold)[0], EventsOf(Arrived(feed), k);
      s.own == own != [] && s.discovered == own[0].time
  {
    hide About, Follows, EventsOf, StaysOf, NeverReturns, CameBack;
    assert feed[..|feed|] == feed;
    StaysShareEvents(feed, k, cold);
    if n: nat :| n < |feed| && About(feed[n], k) {
      var f := FirstIsThere(feed, n, k);
      SinceFirst(feed, f, |feed|, k, cold);
      CameBackIsReturn(feed, f, k, cold);
      if |StaysOf(feed, k, cold)| == 1 {
        OnlyOwn(StaysOf(feed, k, cold));
      }
    } else {
      NoneYet(feed, |feed|, k, cold);
      NobodyReturns(feed, k, cold);
    }
  }

  lemma OnlyOwn(stays: seq<Stay>)
    requires |stays| == 1
    ensures OwnEvents(stays) == stays[0].own
  {
    assert Butlast(stays) == [] && [] + stays[0].own == stays[0].own;
  }

  lemma NobodyReturns(feed: seq<Feed>, k: TokenKey, cold: I64)
    requires forall n :: 0 <= n < |feed| ==> !About(feed[n], k)
    ensures NeverReturns(feed, k, cold)
  {
  }
}
