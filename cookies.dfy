/** The cookie consent page (src/components/pages/Cookies.jsx): four
    consent flags, of which `necessary` can never be switched off. */
module Cookies {

  /** The four cookie kinds the page lists. */
  datatype CookieId = Necessary | Analytics | Marketing | Preferences

  class CookiePreferences {
    var necessary: bool
    var analytics: bool
    var marketing: bool
    var preferences: bool

    /** `cookiePreferences[id]`: the state of one checkbox. */
    function Get(id: CookieId): bool
      reads this
    {
      match id
      case Necessary => necessary
      case Analytics => analytics
      case Marketing => marketing
      case Preferences => preferences
    }

    /** Necessary cookies stay enabled in every reachable state. */
    ghost predicate Valid()
      reads this
    {
      necessary
    }

    /** Only the necessary cookies enabled: the initial preferences. */
    predicate OnlyNecessary()
      reads this
    {
      forall id :: Get(id) <==> id == Necessary
    }

    constructor ()
      ensures Valid() && OnlyNecessary()
    {
      necessary := true;
      analytics := false;
      marketing := false;
      preferences := false;
    }

    /** handleToggleCookie: `necessary` is ignored; any other id flips
        its own flag and no other. */
    method ToggleCookie(id: CookieId)
      requires Valid()
      modifies this
      ensures Valid()
      ensures id == Necessary ==> forall k :: Get(k) == old(Get(k))
      ensures id != Necessary ==> Get(id) == !old(Get(id))
      ensures forall k :: k != id ==> Get(k) == old(Get(k))
    {
      match id
      case Necessary =>
      case Analytics => analytics := !analytics;
      case Marketing => marketing := !marketing;
      case Preferences => preferences := !preferences;
    }

    /** handleAcceptAll: every flag on, whatever the state before. */
    method AcceptAll()
      modifies this
      ensures Valid()
      ensures forall k :: Get(k)
    {
      necessary, analytics, marketing, preferences := true, true, true, true;
    }

    /** handleRejectAll: back to the initial preferences. */
    method RejectAll()
      modifies this
      ensures Valid() && OnlyNecessary()
    {
      necessary, analytics, marketing, preferences := true, false, false, false;
    }
  }

  /** Two clicks on the same checkbox give back the preferences one started from. */
  method ToggleTwice(prefs: CookiePreferences, id: CookieId)
    requires prefs.Valid()
    modifies prefs
    ensures prefs.Valid()
    ensures forall k :: prefs.Get(k) == old(prefs.Get(k))
  {
    prefs.ToggleCookie(id);
    prefs.ToggleCookie(id);
  }
}
