/**
 * The engagement page of one customer: two actions (a Google review and an
 * Instagram follow), each recorded in the customer's engagement document and
 * shown with a check mark, and a celebration once both are done.
 *
 * The page state changes through three kinds of event: the initial load of the
 * engagement document, and the completion of either action's store update.
 * After each, the celebration effect runs.
 */
module Engage {
  import opened Store

  /** The page's state variables. */
  datatype PageState = PageState(
    googleReviewed: bool,
    instagramFollowed: bool,
    showConfetti: bool,
    isLoading: bool)

  /** The state on mount: nothing done, loading. */
  const Initial := PageState(false, false, false, true)

  /**
   * The celebration effect: it turns the confetti on once both actions are
   * done, and never turns it off.
   */
  function Celebrate(s: PageState): (r: PageState)
    ensures r.showConfetti <==> s.showConfetti || (s.googleReviewed && s.instagramFollowed)
    ensures r.googleReviewed == s.googleReviewed && r.instagramFollowed == s.instagramFollowed
    ensures r.isLoading == s.isLoading
  {
    if s.googleReviewed && s.instagramFollowed && !s.showConfetti then s.(showConfetti := true) else s
  }

  /** What the initial read of the engagement document gave. */
  datatype ReadOutcome = ReadFailed | NoDocument | Document(data: Engagement)

  datatype Event =
    | Loaded(read: ReadOutcome)            // the initialisation finished
    | GoogleReviewDone(ok: bool)           // the review handler's update finished (ok: it did not throw)
    | InstagramFollowDone(ok: bool)        // the follow handler's update finished

  /** The state update an event makes, before the effect runs. */
  function Handle(s: PageState, ev: Event): PageState {
    match ev
    case Loaded(Document(d)) =>
      s.(googleReviewed := Truthy(d.googleReviewed), instagramFollowed := Truthy(d.instagramFollowed), isLoading := false)
    case Loaded(_) => s.(isLoading := false)
    case GoogleReviewDone(ok) => if ok then s.(googleReviewed := true) else s
    case InstagramFollowDone(ok) => if ok then s.(instagramFollowed := true) else s
  }

  /** An event followed by the celebration effect. */
  function Step(s: PageState, ev: Event): PageState {
    Celebrate(Handle(s, ev))
  }

  /**
   * After loading, the check marks show exactly the flags the document holds
   * (a missing flag shows none); without a document, or when the read fails,
   * they stay as they were. Loading ends in every case.
   */
  lemma LoadedShowsDocument(s: PageState, r: ReadOutcome)
    ensures !Step(s, Loaded(r)).isLoading
    ensures r.Document? ==>
              Step(s, Loaded(r)).googleReviewed == Truthy(r.data.googleReviewed) &&
              Step(s, Loaded(r)).instagramFollowed == Truthy(r.data.instagramFollowed)
    ensures !r.Document? ==>
              Step(s, Loaded(r)).googleReviewed == s.googleReviewed &&
              Step(s, Loaded(r)).instagramFollowed == s.instagramFollowed
  {
  }

  /** The events applied in order. */
  function Run(s: PageState, evs: seq<Event>): PageState
    decreases |evs|
  {
    if evs == [] then s else Step(Run(s, evs[..|evs| - 1]), evs[|evs| - 1])
  }

  /** How many steps of the run turn the confetti on. */
  function Flips(s: PageState, evs: seq<Event>): nat
    decreases |evs|
  {
    if evs == [] then 0
    else
      var before := Run(s, evs[..|evs| - 1]);
      Flips(s, evs[..|evs| - 1]) + (if !before.showConfetti && Step(before, evs[|evs| - 1]).showConfetti then 1 else 0)
  }

  lemma {:induction false} RunAppend(s: PageState, a: seq<Event>, b: seq<Event>)
    ensures Run(s, a + b) == Run(Run(s, a), b)
    decreases |b|
  {
    if b == [] {
      assert a + b == a;
    } else {
      var b' := b[..|b| - 1];
      assert (a + b)[..|a + b| - 1] == a + b';
      assert (a + b)[|a + b| - 1] == b[|b| - 1];
      RunAppend(s, a, b');
    }
  }

  /** Once on, the confetti stays on. */
  lemma {:induction false} ConfettiStays(s: PageState, evs: seq<Event>)
    requires s.showConfetti
    ensures Run(s, evs).showConfetti
    decreases |evs|
  {
    if evs != [] {
      ConfettiStays(s, evs[..|evs| - 1]);
    }
  }

  /** The confetti is turned on at most once: exactly once when it was off and ends on. */
  lemma {:induction false} ConfettiFlipsOnce(s: PageState, evs: seq<Event>)
    ensures Flips(s, evs) == if !s.showConfetti && Run(s, evs).showConfetti then 1 else 0
    decreases |evs|
  {
    if evs != [] {
      var p := evs[..|evs| - 1];
      ConfettiFlipsOnce(s, p);
      if s.showConfetti {
        ConfettiStays(s, p);
      }
      assert Run(s, evs) == Step(Run(s, p), evs[|evs| - 1]);
    }
  }

  predicate IsHandlerEvent(ev: Event) {
    !ev.Loaded?
  }

  /**
   * Between loads, a check mark is on exactly when it was on before or that
   * action's update succeeded; handlers never clear one, and never touch the
   * loading flag.
   */
  lemma {:induction false} HandlersRaiseFlags(s: PageState, evs: seq<Event>)
    requires forall k :: 0 <= k < |evs| ==> IsHandlerEvent(evs[k])
    ensures Run(s, evs).googleReviewed <==> s.googleReviewed || GoogleReviewDone(true) in evs
    ensures Run(s, evs).instagramFollowed <==> s.instagramFollowed || InstagramFollowDone(true) in evs
    ensures Run(s, evs).isLoading == s.isLoading
    decreases |evs|
  {
    if evs != [] {
      var p, last := evs[..|evs| - 1], evs[|evs| - 1];
      assert evs == p + [last];
      HandlersRaiseFlags(s, p);
    }
  }

  /** The confetti is on exactly when both check marks are. */
  predicate Settled(s: PageState) {
    s.showConfetti <==> s.googleReviewed && s.instagramFollowed
  }

  /**
   * From a settled state, the handlers keep it settled: the confetti is on
   * after them exactly when each action was done before or succeeded among them.
   */
  lemma {:induction false} HandlersCelebrateBoth(s: PageState, evs: seq<Event>)
    requires Settled(s)
    requires forall k :: 0 <= k < |evs| ==> IsHandlerEvent(evs[k])
    ensures Settled(Run(s, evs))
    ensures Run(s, evs).showConfetti <==>
              (s.googleReviewed || GoogleReviewDone(true) in evs) &&
              (s.instagramFollowed || InstagramFollowDone(true) in evs)
    decreases |evs|
  {
    if evs != [] {
      HandlersCelebrateBoth(s, evs[..|evs| - 1]);
    }
    HandlersRaiseFlags(s, evs);
  }

  /**
   * Whatever the load gave, a visit in which both actions succeed, in any
   * order and among any failures, ends with the confetti on, turned on once.
   */
  lemma BothActionsCelebrateOnce(r: ReadOutcome, hs: seq<Event>)
    requires forall k :: 0 <= k < |hs| ==> IsHandlerEvent(hs[k])
    requires GoogleReviewDone(true) in hs && InstagramFollowDone(true) in hs
    ensures Run(Initial, [Loaded(r)] + hs).showConfetti
    ensures Flips(Initial, [Loaded(r)] + hs) == 1
  {
    var loaded := Run(Initial, [Loaded(r)]);
    assert [Loaded(r)][..0] == [] && Run(Initial, []) == Initial;
    assert loaded == Step(Run(Initial, []), Loaded(r));
    assert Settled(loaded);
    RunAppend(Initial, [Loaded(r)], hs);
    HandlersCelebrateBoth(loaded, hs);
    ConfettiFlipsOnce(Initial, [Loaded(r)] + hs);
  }

  /**
   * Without a recorded or successful review, no confetti: one action is not
   * enough. This covers a customer whose document was just created with both
   * flags false, one with no document, and a failed read.
   */
  lemma NoConfettiWithoutReview(r: ReadOutcome, hs: seq<Event>)
    requires !(r.Document? && Truthy(r.data.googleReviewed))
    requires forall k :: 0 <= k < |hs| ==> IsHandlerEvent(hs[k])
    requires GoogleReviewDone(true) !in hs
    ensures !Run(Initial, [Loaded(r)] + hs).showConfetti
  {
    var loaded := Run(Initial, [Loaded(r)]);
    assert [Loaded(r)][..0] == [] && Run(Initial, []) == Initial;
    assert loaded == Step(Run(Initial, []), Loaded(r));
    RunAppend(Initial, [Loaded(r)], hs);
    HandlersCelebrateBoth(loaded, hs);
  }

  /** The page of one customer, over the shared document store. */
  class EngagePage {
    const customerId: Id
    const store: EngagementStore
    var googleReviewed: bool
    var instagramFollowed: bool
    var showConfetti: bool
    var isLoading: bool

    function State(): PageState
      reads this
    {
      PageState(googleReviewed, instagramFollowed, showConfetti, isLoading)
    }

    /** Every check mark shown is recorded in the customer's engagement document. */
    predicate Recorded()
      reads this, store
    {
      && (googleReviewed ==> customerId in store.engagement && Truthy(store.engagement[customerId].googleReviewed))
      && (instagramFollowed ==> customerId in store.engagement && Truthy(store.engagement[customerId].instagramFollowed))
    }

    constructor (customerId: Id, store: EngagementStore)
      ensures this.customerId == customerId && this.store == store
      ensures State() == Initial && Recorded()
    {
      this.customerId := customerId;
      this.store := store;
      googleReviewed := false;
      instagramFollowed := false;
      showConfetti := false;
      isLoading := true;
    }

    /** The celebration effect on the fields. */
    method CelebrationEffect()
      modifies this
      ensures State() == Celebrate(old(State()))
    {
      if googleReviewed && instagramFollowed && !showConfetti {
        showConfetti := true;
      }
    }

    /**
     * The initialisation: reads the document (`readOk` false: the read throws);
     * creates it when missing (`writeOk` false: the write throws), or copies its
     * flags when present; then the effect.
     */
    method Initialize(readOk: bool, writeOk: bool, now: Timestamp)
      modifies this, store
      ensures State() == Step(old(State()),
                 Loaded(if !readOk then ReadFailed
                        else if customerId in old(store.engagement) then Document(old(store.engagement)[customerId])
                        else NoDocument))
      ensures store.engagement ==
                if readOk && customerId !in old(store.engagement) && writeOk
                then old(store.engagement)[customerId := NewEngagement(now)]
                else old(store.engagement)
      ensures store.customers == old(store.customers)
      ensures old(Recorded()) ==> Recorded()
    {
      if readOk {
        if customerId !in store.engagement {
          var _ := store.Create(customerId, NewEngagement(now), writeOk);
        } else {
          var data := store.engagement[customerId];
          googleReviewed := Truthy(data.googleReviewed);
          instagramFollowed := Truthy(data.instagramFollowed);
        }
      }
      isLoading := false;
      CelebrationEffect();
    }

    /** The review handler: updates the document (`online` false: the update throws), then the check mark. */
    method HandleGoogleReview(online: bool, now: Timestamp)
      modifies this, store
      ensures State() == Step(old(State()), GoogleReviewDone(online && customerId in old(store.engagement)))
      ensures store.engagement ==
                if online && customerId in old(store.engagement)
                then old(store.engagement)[customerId := Apply(old(store.engagement)[customerId], GoogleReview, now)]
                else old(store.engagement)
      ensures store.customers == old(store.customers)
      ensures old(Recorded()) ==> Recorded()
    {
      var ok := store.Update(customerId, GoogleReview, now, online);
      if ok {
        googleReviewed := true;
      }
      CelebrationEffect();
    }

    /** The follow handler: updates the document, then the check mark. */
    method HandleInstagramFollow(online: bool, now: Timestamp)
      modifies this, store
      ensures State() == Step(old(State()), InstagramFollowDone(online && customerId in old(store.engagement)))
      ensures store.engagement ==
                if online && customerId in old(store.engagement)
                then old(store.engagement)[customerId := Apply(old(store.engagement)[customerId], InstagramFollow, now)]
                else old(store.engagement)
      ensures store.customers == old(store.customers)
      ensures old(Recorded()) ==> Recorded()
    {
      var ok := store.Update(customerId, InstagramFollow, now, online);
      if ok {
        instagramFollowed := true;
      }
      CelebrationEffect();
    }
  }
}
