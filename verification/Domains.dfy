// The domain classes of Route Assist (src/roblox_proxy/hosts.rs).
module Domains {
  import opened Basics

  function DirectOnlyBootstrapDomains(): seq<string> {
    [
      "clientsettingscdn.roblox.com", "clientsettings.roblox.com", "clientsettings.api.roblox.com",
      "versioncompatibility.api.roblox.com", "auth.roblox.com"
    ]
  }

  function AssetDirectRobloxDomains(): seq<string> {
    [
      "assetgame.roblox.com", "assetdelivery.roblox.com", "thumbnails.roblox.com", "setup.roblox.com"
    ]
  }

  function PinnedAssetDirectRobloxDomains(): seq<string> {
    [
      "assetdelivery.roblox.com", "assetgame.roblox.com", "thumbnails.roblox.com"
    ]
  }

  function RouteAssistRelayDomains(): seq<string> {
    [
      "gamejoin.roblox.com", "games.roblox.com", "lms.roblox.com"
    ]
  }

  function RobloxBootstrapDomains(): seq<string> {
    [
      "api.roblox.com", "clientsettingscdn.roblox.com", "clientsettings.roblox.com",
      "clientsettings.api.roblox.com", "versioncompatibility.api.roblox.com", "www.roblox.com", "web.roblox.com",
      "apis.roblox.com", "auth.roblox.com", "accountsettings.roblox.com", "accountinformation.roblox.com",
      "users.roblox.com", "avatar.roblox.com", "badges.roblox.com", "catalog.roblox.com", "contacts.roblox.com",
      "inventory.roblox.com", "economy.roblox.com", "followings.roblox.com",
      "gameinternationalization.roblox.com", "games.roblox.com", "gamejoin.roblox.com", "groups.roblox.com",
      "lms.roblox.com", "notifications.roblox.com", "assetgame.roblox.com", "assetdelivery.roblox.com",
      "thumbnails.roblox.com", "presence.roblox.com", "friends.roblox.com", "chat.roblox.com",
      "chatsite.roblox.com", "pulsar.roblox.com", "silver.roblox.com", "locale.roblox.com", "setup.roblox.com",
      "captcha.roblox.com", "setup.rbxcdn.com", "apis.rbxcdn.com", "js.rbxcdn.com", "static.rbxcdn.com",
      "c0.rbxcdn.com", "c1.rbxcdn.com", "c2.rbxcdn.com", "c3.rbxcdn.com", "c4.rbxcdn.com", "c5.rbxcdn.com",
      "c6.rbxcdn.com", "c7.rbxcdn.com", "tr.rbxcdn.com", "fts.rbxcdn.com", "t0.rbxcdn.com", "t1.rbxcdn.com",
      "t2.rbxcdn.com", "t3.rbxcdn.com", "t4.rbxcdn.com", "t5.rbxcdn.com", "t6.rbxcdn.com", "t7.rbxcdn.com",
      "images.rbxcdn.com", "css.rbxcdn.com", "arkoselabs.roblox.com", "cdn.arkoselabs.com",
      "client.arkoselabs.com", "client-api.arkoselabs.com", "iframe.arkoselabs.com", "roblox-api.arkoselabs.com",
      "roblox-verify.arkoselabs.com", "status.arkoselabs.com", "verify.arkoselabs.com"
    ]
  }

  predicate EqIgnoreCase(a: string, b: string) {
    Lower(a) == Lower(b)
  }

  predicate Listed(domain: string, list: seq<string>) {
    exists d :: d in list && EqIgnoreCase(domain, d)
  }

  // `trim_end_matches('.')`
  function TrimDots(d: string): string {
    if d != "" && d[|d| - 1] == '.' then TrimDots(d[..|d| - 1]) else d
  }

  predicate EndsWith(s: string, suffix: string) {
    |suffix| <= |s| && s[|s| - |suffix|..] == suffix
  }

  predicate IsDirectOnlyBootstrapDomain(domain: string) {
    Listed(domain, DirectOnlyBootstrapDomains())
  }

  predicate IsPinnedAssetDirectDomain(domain: string) {
    Listed(TrimDots(domain), PinnedAssetDirectRobloxDomains())
  }

  predicate IsPinnedRouteAssistDirectDomain(domain: string) {
    IsDirectOnlyBootstrapDomain(domain) || IsPinnedAssetDirectDomain(domain)
  }

  predicate IsAssetDirectDomain(domain: string) {
    Listed(TrimDots(domain), AssetDirectRobloxDomains()) || EndsWith(Lower(TrimDots(domain)), ".rbxcdn.com")
  }

  predicate IsRouteAssistRelayDomain(domain: string) {
    Listed(TrimDots(domain), RouteAssistRelayDomains())
  }

  // Every known helper, UI or asset host except the small relayed set.
  predicate IsRouteAssistDirectDomain(domain: string) {
    var d := TrimDots(domain);
    !IsRouteAssistRelayDomain(d) &&
    (IsDirectOnlyBootstrapDomain(d) || IsAssetDirectDomain(d) || Listed(d, RobloxBootstrapDomains()))
  }

  lemma {:induction false} LowerTrimDots(d: string)
    ensures Lower(TrimDots(d)) == TrimDots(Lower(d))
  {
    if d != "" && d[|d| - 1] == '.' {
      LowerTrimDots(d[..|d| - 1]);
      assert Lower(d)[..|d| - 1] == Lower(d[..|d| - 1]);
    }
  }

  // Spelling in another case never moves a domain to another class.
  lemma ClassIgnoresCase(a: string, b: string)
    requires EqIgnoreCase(a, b)
    ensures IsRouteAssistDirectDomain(a) <==> IsRouteAssistDirectDomain(b)
  {
    hide DirectOnlyBootstrapDomains, AssetDirectRobloxDomains, RouteAssistRelayDomains, RobloxBootstrapDomains;
    LowerTrimDots(a);
    LowerTrimDots(b);
    LowerTrimDots(TrimDots(a));
    LowerTrimDots(TrimDots(b));
  }

  // A host of the direct-only list.
  const AUTH_HOST := "auth.roblox.com"

  lemma AuthHostIsDirect()
    ensures IsRouteAssistDirectDomain(AUTH_HOST)
  {
    hide IsDirectOnlyBootstrapDomain, IsAssetDirectDomain, IsRouteAssistRelayDomain, RobloxBootstrapDomains;
    AuthHostIsListed();
    AuthHostIsNotRelayed();
  }

  lemma AuthHostIsListed()
    ensures TrimDots(AUTH_HOST) == AUTH_HOST && IsDirectOnlyBootstrapDomain(AUTH_HOST)
  {
    assert DirectOnlyBootstrapDomains()[4] == AUTH_HOST;
    hide DirectOnlyBootstrapDomains;
    assert EqIgnoreCase(AUTH_HOST, AUTH_HOST);
  }

  lemma AuthHostIsNotRelayed()
    ensures !IsRouteAssistRelayDomain(AUTH_HOST)
  {
    assert TrimDots(AUTH_HOST) == AUTH_HOST;
    assert Lower(AUTH_HOST)[0] == 'a';
    forall r | r in RouteAssistRelayDomains()
      ensures !EqIgnoreCase(AUTH_HOST, r)
    {
      assert Lower(r)[0] != 'a';
    }
  }

  // ----- Which domains are direct, however they are spelled -----

  predicate Dots(s: string) {
    forall c :: c in s ==> c == '.'
  }

  lemma {:induction false} TrimDotsOff(d: string, dots: string)
    requires Dots(dots) && (d != "" ==> d[|d| - 1] != '.')
    ensures TrimDots(d + dots) == d && TrimDots(d) == d
    decreases |dots|
  {
    if dots == "" {
      assert d + dots == d;
    } else {
      var n := |dots| - 1;
      assert dots[n] in dots && forall c :: c in dots[..n] ==> c in dots;
      assert (d + dots)[..|d + dots| - 1] == d + dots[..n];
      TrimDotsOff(d, dots[..n]);
    }
  }

  lemma LastLetter(a: string, b: string)
    requires EqIgnoreCase(a, b)
    ensures |a| == |b| && (a != "" && b[|b| - 1] == 'm' ==> a[|a| - 1] != '.')
  {
    if a != "" {
      assert |Lower(a)| == |a| && |Lower(b)| == |b|;
      assert Lower(a)[|a| - 1] == LowerChar(a[|a| - 1]) && Lower(b)[|b| - 1] == LowerChar(b[|b| - 1]);
    }
  }

  // The join, games and matchmaking hosts are relayed, in any case and with any trailing dots.
  lemma RelayHostsAreRelayed(d: string, dots: string, r: string)
    requires EqIgnoreCase(d, r) && Dots(dots)
    requires r == "gamejoin.roblox.com" || r == "games.roblox.com" || r == "lms.roblox.com"
    ensures !IsRouteAssistDirectDomain(d + dots)
  {
    hide IsDirectOnlyBootstrapDomain, IsAssetDirectDomain, RobloxBootstrapDomains, EqIgnoreCase, TrimDots;
    RelayHostListed(r);
    LastLetter(d, r);
    TrimDotsOff(d, dots);
    hide RouteAssistRelayDomains;
    assert IsRouteAssistRelayDomain(d);
  }

  lemma RelayHostListed(r: string)
    requires r == "gamejoin.roblox.com" || r == "games.roblox.com" || r == "lms.roblox.com"
    ensures r in RouteAssistRelayDomains() && r != "" && r[|r| - 1] == 'm'
  {
    assert RouteAssistRelayDomains()[0] == "gamejoin.roblox.com" && RouteAssistRelayDomains()[1] == "games.roblox.com" &&
           RouteAssistRelayDomains()[2] == "lms.roblox.com";
  }

  // Every other host of the bootstrap list (all of them end in "com") is direct.
  lemma OtherKnownHostsAreDirect(d: string, dots: string, r: string)
    requires EqIgnoreCase(d, r) && Dots(dots) && r in RobloxBootstrapDomains() && r != "" && r[|r| - 1] == 'm'
    requires !EqIgnoreCase(d, "gamejoin.roblox.com") && !EqIgnoreCase(d, "games.roblox.com") && !EqIgnoreCase(d, "lms.roblox.com")
    ensures IsRouteAssistDirectDomain(d + dots)
  {
    LastLetter(d, r);
    TrimDotsOff(d, dots);
    hide IsDirectOnlyBootstrapDomain, IsAssetDirectDomain, RobloxBootstrapDomains, EqIgnoreCase;
  }

  // Every host under rbxcdn.com is direct.
  lemma CdnHostsAreDirect(shard: string)
    ensures IsRouteAssistDirectDomain(shard + ".rbxcdn.com")
  {
    var d := shard + ".rbxcdn.com";
    CdnEnding(shard);
    hide IsDirectOnlyBootstrapDomain, RobloxBootstrapDomains, RouteAssistRelayDomains, TrimDots, EqIgnoreCase, AssetDirectRobloxDomains;
    TrimDotsOff(d, "");
    CdnIsNotRelayed(d);
    assert d + "" == d;
  }

  lemma CdnEnding(shard: string)
    ensures var d := shard + ".rbxcdn.com";
            EndsWith(Lower(d), ".rbxcdn.com") && d[|d| - 1] == 'm' && Lower(d)[|d| - 5] == 'n'
  {
    var d, n := shard + ".rbxcdn.com", |shard|;
    assert d[n..] == ".rbxcdn.com";
    assert forall i :: 0 <= i < 11 ==> d[n + i] == ".rbxcdn.com"[i] == LowerChar(".rbxcdn.com"[i]);
    assert Lower(d)[n..] == ".rbxcdn.com";
  }

  lemma CdnIsNotRelayed(d: string)
    requires |d| >= 5 && Lower(d)[|d| - 5] == 'n'
    ensures !Listed(d, RouteAssistRelayDomains())
  {
    forall r | r in RouteAssistRelayDomains()
      ensures !EqIgnoreCase(d, r)
    {
      assert |Lower(r)| == |r| && |Lower(d)| == |d|;
      assert Lower(r)[|r| - 5] == 'x';
    }
  }

  // Pinned to their direct addresses are the launch and authentication hosts and three of the asset
  // hosts; others, though direct, are left to the user's own resolver.
  lemma PinnedHosts(d: string)
    requires d == "auth.roblox.com" || d == "clientsettings.roblox.com" || d == "assetdelivery.roblox.com" || d == "thumbnails.roblox.com"
    ensures IsPinnedRouteAssistDirectDomain(d)
  {
    assert DirectOnlyBootstrapDomains()[4] == "auth.roblox.com" && DirectOnlyBootstrapDomains()[1] == "clientsettings.roblox.com";
    assert PinnedAssetDirectRobloxDomains()[0] == "assetdelivery.roblox.com" &&
           PinnedAssetDirectRobloxDomains()[2] == "thumbnails.roblox.com";
    assert EqIgnoreCase(d, d) && TrimDots(d) == d;
    hide DirectOnlyBootstrapDomains, PinnedAssetDirectRobloxDomains;
  }
}
