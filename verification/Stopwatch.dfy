/** The profiling stopwatch (include/profiling/stopwatch.h). Times are clock readings handed in by the caller,
    which never decrease. */
module Stopwatch {
  import opened Options
  import opened MapTotals

  const PREPROCESSING := "PREPROCESSING"

  predicate Quoted(text: string) { '"' in text || '\'' in text }

  /** times[text] += elapsed, a new label starting from zero. */
  function Plus(times: map<string, int>, text: string, elapsed: int): map<string, int> {
    times[text := Get(times, text) + elapsed]
  }

  /** All labels but the bookkeeping one. */
  function Others(times: map<string, int>): map<string, int> { times - {PREPROCESSING} }

  lemma {:induction false} OthersUpdate(times: map<string, int>, text: string, v: int)
    ensures Total(Others(times[text := v]))
         == Total(Others(times)) + (if text == PREPROCESSING then 0 else v - Get(times, text))
  {
    if text == PREPROCESSING {
      assert Others(times[text := v]) == Others(times);
    } else {
      assert Others(times[text := v]) == Others(times)[text := v];
      TotalUpdate(Others(times), text, v);
    }
  }

  class Profiler {
    var profileTimes: map<string, int>
    var preprocTimes: map<string, int>
    var profileLast: int
    var preprocLast: int

    /** When profiling began, the last clock reading, the last labelled preprocessing point, and the time of
        profile points whose own label was PREPROCESSING. */
    ghost var start: int
    ghost var clock: int
    ghost var lastLabelled: int
    ghost var mixed: int

    /** The account every call keeps: profile points tile the time since the start, labelled preprocessing
        points lie inside it, and the bookkeeping entry is their sum. */
    ghost predicate Valid()
      reads this
    {
      && start <= profileLast <= clock && start <= lastLabelled <= preprocLast <= clock
      && Total(Others(profileTimes)) + mixed == profileLast - start
      && Get(profileTimes, PREPROCESSING) == mixed + Total(preprocTimes)
      && 0 <= Total(preprocTimes) <= lastLabelled - start
    }

    /** profile_init: the clock is read twice. */
    constructor (now: int, later: int)
      requires now <= later
      ensures Valid() && profileTimes == preprocTimes == map[] && start == profileLast == now && mixed == 0
      ensures lastLabelled == preprocLast == clock == later
    {
      profileTimes, preprocTimes := map[], map[];
      profileLast, preprocLast := now, later;
      start, clock, lastLabelled, mixed := now, later, later, 0;
      TotalZero<string>(map[]);
      new;
      assert Others(profileTimes) == map[];
    }

    /** profile_init again: everything starts over. */
    method Init(now: int, later: int)
      requires now <= later
      modifies this
      ensures Valid() && profileTimes == preprocTimes == map[] && start == profileLast == now && mixed == 0
      ensures lastLabelled == preprocLast == clock == later
    {
      profileTimes, preprocTimes := map[], map[];
      profileLast, preprocLast := now, later;
      start, clock, lastLabelled, mixed := now, later, later, 0;
      TotalZero<string>(map[]);
      assert Others(profileTimes) == map[];
    }

    /** profile_timepoint: false stands for the exception on a label with quotes, which changes nothing. */
    method Timepoint(text: string, now: int) returns (ok: bool)
      requires Valid() && clock <= now
      modifies this
      ensures Valid() && (ok <==> '"' !in text && '\'' !in text)
      ensures preprocTimes == old(preprocTimes) && preprocLast == old(preprocLast) && start == old(start)
      ensures lastLabelled == old(lastLabelled)
      ensures ok ==> profileTimes == Plus(old(profileTimes), text, now - old(profileLast)) && profileLast == now
      ensures !ok ==> profileTimes == old(profileTimes) && profileLast == old(profileLast)
      ensures clock == (if ok then now else old(clock))
      ensures mixed == old(mixed) + (if ok && text == PREPROCESSING then now - old(profileLast) else 0)
    {
      if Quoted(text) {
        return false;
      }
      var elapsed := now - profileLast;
      OthersUpdate(profileTimes, text, Get(profileTimes, text) + elapsed);
      profileTimes := profileTimes[text := Get(profileTimes, text) + elapsed];
      profileLast := now;
      mixed := mixed + if text == PREPROCESSING then elapsed else 0;
      clock := now;
      ok := true;
    }

    /** A labelled preprocessing interval, under its own label and the bookkeeping one. */
    method Label(text: string, elapsed: int)
      requires Valid() && 0 <= elapsed && elapsed == clock - preprocLast
      modifies this`profileTimes, this`preprocTimes, this`lastLabelled, this`preprocLast
      ensures Valid() && lastLabelled == preprocLast == clock
      ensures preprocTimes == Plus(old(preprocTimes), text, elapsed)
      ensures profileTimes == Plus(old(profileTimes), PREPROCESSING, elapsed)
    {
      OthersUpdate(profileTimes, PREPROCESSING, Get(profileTimes, PREPROCESSING) + elapsed);
      TotalUpdate(preprocTimes, text, Get(preprocTimes, text) + elapsed);
      profileTimes := profileTimes[PREPROCESSING := Get(profileTimes, PREPROCESSING) + elapsed];
      preprocTimes := preprocTimes[text := Get(preprocTimes, text) + elapsed];
      preprocLast := preprocLast + elapsed;
      lastLabelled := clock;
    }

    /** profile_preprocessing: without a label only the last point moves. */
    method Preprocessing(text: Option<string>, now: int) returns (ok: bool)
      requires Valid() && clock <= now
      modifies this
      ensures Valid() && (ok <==> text.Some? ==> '"' !in text.value && '\'' !in text.value)
      ensures profileLast == old(profileLast) && start == old(start) && mixed == old(mixed)
      ensures ok ==> preprocLast == clock == now
      ensures !ok ==> preprocLast == old(preprocLast) && clock == old(clock)
      ensures ok && text.Some? ==>
        && lastLabelled == now
        && preprocTimes == Plus(old(preprocTimes), text.value, now - old(preprocLast))
        && profileTimes == Plus(old(profileTimes), PREPROCESSING, now - old(preprocLast))
      ensures !ok || text == None ==>
        preprocTimes == old(preprocTimes) && profileTimes == old(profileTimes) && lastLabelled == old(lastLabelled)
    {
      if text.Some? && Quoted(text.value) {
        return false;
      }
      var elapsed := now - preprocLast;
      clock := now;
      if text.Some? {
        Label(text.value, elapsed);
      }
      preprocLast := now;
      ok := true;
    }

    /** profile_done: the total of the printed labels, and the online time where it is printed. */
    method Done() returns (total: int, online: Option<int>)
      requires Valid()
      ensures total == profileLast - start - mixed
      ensures online.Some? <==> "PREPROCESSING" in profileTimes
      ensures online.Some? ==> online.value == profileLast - start - 2 * mixed - Total(preprocTimes)
      ensures online.Some? && mixed == 0 ==> online.value >= profileLast - lastLabelled
    {
      total, online := 0, None;
      var printOnline, rest := false, profileTimes;
      while rest != map[]
        invariant forall k :: k in rest ==> k in profileTimes && rest[k] == profileTimes[k]
        invariant total + Total(Others(rest)) == Total(Others(profileTimes))
        invariant printOnline <==> PREPROCESSING in profileTimes && PREPROCESSING !in rest
        decreases |rest|
      {
        var text :| text in rest.Keys;
        if text == PREPROCESSING {
          printOnline := true;
        } else {
          total := total + rest[text];
        }
        Visit(rest, text);
        rest := rest - {text};
      }
      EmptyOthers();
      if printOnline {
        online := Some(total - profileTimes[PREPROCESSING]);
      }
    }
  }

  lemma {:induction false} EmptyOthers()
    ensures Total(Others(map[])) == 0
  {
    TotalZero(Others(map[]));
  }

  lemma {:induction false} Visit(rest: map<string, int>, text: string)
    requires text in rest
    ensures Total(Others(rest - {text})) == Total(Others(rest)) - (if text == PREPROCESSING then 0 else rest[text])
    ensures |rest - {text}| < |rest|
  {
    if text == PREPROCESSING {
      assert Others(rest - {text}) == Others(rest);
    } else {
      TotalWithout(Others(rest), text);
      assert Others(rest - {text}) == Others(rest) - {text};
    }
    assert (rest - {text}).Keys == rest.Keys - {text};
  }
}
