/**
 * The interstitial-ad throttle on Android: every end of a session asks for
 * an ad, and one is shown at most every third request, when the SDK has one
 * loaded.
 */
module Ads {

  /** Whether a request shows an ad, given the counter before the request,
      whether an ad is loaded and whether the SDK handler exists. */
  predicate ShowsAd(counterBefore: int, adLoaded: bool, handlerPresent: bool)
  {
    counterBefore + 1 >= 2 && adLoaded && handlerPresent
  }

  /** The static state of the ad manager. `shown` counts the SDK `Show` calls;
      the SDK sets `adLoaded` and `handlerPresent` when an ad arrives. */
  class AdManager {
    var adLoaded: bool
    var handlerPresent: bool
    var adCounter: int
    var shown: nat

    constructor ()
      ensures !adLoaded && !handlerPresent && adCounter == 0 && shown == 0
    {
      adLoaded := false;
      handlerPresent := false;
      adCounter := 0;
      shown := 0;
    }

    /** Counts the request; shows an ad when the counter has reached 2 and
        one is ready, and then restarts the counter at -1. */
    method ShowAd() returns (showed: bool)
      modifies this
      ensures showed == ShowsAd(old(adCounter), old(adLoaded), old(handlerPresent))
      ensures showed ==> adCounter == -1 && !adLoaded && shown == old(shown) + 1
      ensures !showed ==> adCounter == old(adCounter) + 1 && adLoaded == old(adLoaded) && shown == old(shown)
      ensures handlerPresent == old(handlerPresent)
    {
      adCounter := adCounter + 1;
      showed := adCounter >= 2 && adLoaded && handlerPresent;
      if showed {
        adCounter := -1;
        adLoaded := false;
        shown := shown + 1;
      }
    }
  }

  /** A show leaves the counter at -1 and each request that shows nothing
      raises it by one, so the two requests after a show see -1 and 0 and
      never show an ad, whatever the SDK state; the third (counter 1) can. */
  lemma NoAdForTwoRequestsAfterShow(loaded1: bool, handler1: bool, loaded2: bool, handler2: bool)
    ensures !ShowsAd(-1, loaded1, handler1)
    ensures !ShowsAd(0, loaded2, handler2)
    ensures ShowsAd(1, true, true)
  {
  }

  /** A request never shows an ad when none is loaded. */
  lemma NoAdWithoutLoad(counter: int, handlerPresent: bool)
    ensures !ShowsAd(counter, false, handlerPresent)
  {
  }
}
