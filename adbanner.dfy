/**
 * The advertising slot: the banner renders an AdSense `<ins>` element only for a user
 * whose entitlement has loaded and is not premium, with a slot and a client id
 * configured; its effect pushes one request per component instance; the placeholder
 * renders for premium users only.
 */
module AdBanner {
  import opened Wrappers
  import Subscription

  datatype AdFormat = Auto | Horizontal | Vertical | Rectangle

  /** The attributes of the rendered `<ins>` element. */
  datatype Slot = Slot(client: string, slot: string, format: AdFormat)

  /** The render gate: nothing while premium or loading, nothing without a slot or a
      client id (an empty string counts as none); otherwise the slot element. */
  function Render(status: Subscription.Status, slot: Option<string>, clientId: Option<string>, format: AdFormat): (r: Option<Slot>)
    ensures r.Some? <==> !status.isPremium && !status.isLoading && Subscription.Truthy(slot).Some? && Subscription.Truthy(clientId).Some?
    ensures r.Some? ==> r.value == Slot(clientId.value, slot.value, format)
  {
    if status.isPremium || status.isLoading then None
    else if Subscription.Truthy(slot).None? then None
    else if Subscription.Truthy(clientId).None? then None
    else Some(Slot(clientId.value, slot.value, format))
  }

  /** `AdPlaceholder` renders exactly for premium users. */
  predicate ShowsPlaceholder(status: Subscription.Status) {
    status.isPremium
  }

  /** The first render, before the entitlement is known, shows no ad. */
  lemma NoAdWhileLoading(slot: Option<string>, clientId: Option<string>, format: AdFormat)
    ensures Render(Subscription.Initial, slot, clientId, format).None?
  {
  }

  /** For one status, the banner and the placeholder never both show. */
  lemma BannerOrPlaceholder(status: Subscription.Status, slot: Option<string>, clientId: Option<string>, format: AdFormat)
    ensures !(Render(status, slot, clientId, format).Some? && ShowsPlaceholder(status))
  {
  }

  /** One banner instance: its `isAdLoaded` flag and the number of requests it has
      pushed onto `window.adsbygoogle`. */
  class AdSlot {
    var isAdLoaded: bool
    var pushes: nat

    /** The flag is set exactly when this instance's one push went through. */
    ghost predicate Valid()
      reads this
    {
      pushes == if isAdLoaded then 1 else 0
    }

    constructor()
      ensures Valid() && !isAdLoaded && pushes == 0
    {
      isAdLoaded, pushes := false, 0;
    }

    /** One run of the effect. It returns early while premium or loading, without a slot
        or once loaded; it pushes only when the `<ins>` element was rendered; a push that
        throws is caught and leaves the flag unset. So an instance pushes at most once. */
    method Effect(status: Subscription.Status, slot: Option<string>, clientId: Option<string>, format: AdFormat, pushThrows: bool)
      requires Valid()
      modifies this
      ensures Valid() && pushes <= 1
      ensures var push := !old(isAdLoaded) && Render(status, slot, clientId, format).Some? && !pushThrows;
        isAdLoaded == (old(isAdLoaded) || push) && pushes == old(pushes) + (if push then 1 else 0)
    {
      if status.isPremium || status.isLoading {
        return;
      }
      if Subscription.Truthy(slot).None? || isAdLoaded {
        return;
      }
      var rendered := Render(status, slot, clientId, format).Some?;
      if !isAdLoaded && rendered {
        if !pushThrows {
          pushes := pushes + 1;
          isAdLoaded := true;
        }
      }
    }
  }
}
