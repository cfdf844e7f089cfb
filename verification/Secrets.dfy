/**
  Keeping stored secrets away from new addresses.

  A secret that a configuration draft keeps unchanged is cleared if one of the addresses it would
  be sent to is new. Clearing a special secret can make a general one the fallback for a new
  address, so the clearing is repeated until nothing changes.
 */
module Secrets {
  import opened Wrappers

  datatype Cred = Username | Password

  datatype Secret =
    | NtfyToken | EvHaToken | EvHttpToken | EosRemoteToken
    | Smb(cred: Cred) | DatabasePassword | OpenEvse(cred: Cred) | Nrgkick(cred: Cred) | WattpilotPassword
    | Mqtt(cred: Cred) | WeatherMqtt(cred: Cred) | VictronMqtt(cred: Cred) | CrossCheckMqtt(cred: Cred)

  datatype Address =
    | NtfyTopicUrl | EvHaUrl | EvHttpUrl | EosEndpoint | SmbHost | DatabaseHost | DatabasePort
    | OpenEvseUrl | NrgkickHost | WattpilotHost
    | MqttBrokerUrl | WeatherProvider | WeatherBrokerUrl
    | VictronBroker | VictronSchema | VictronHost | CrossCheckBroker

  /** The part of the configuration that matters; what is not there reads as empty. */
  datatype Config = Config(addresses: map<Address, string>, secrets: map<Secret, string>)

  function G(c: Config, a: Address): string { if a in c.addresses then c.addresses[a] else "" }
  function Value(c: Config, s: Secret): string { if s in c.secrets then c.secrets[s] else "" }
  function Or(x: string, y: string): string { if x != "" then x else y }

  /** A normalised address; `std` says that the port is the protocol's standard port. */
  datatype Target = Target(host: string, secure: Secure, port: string, std: bool, proto: string)
  datatype Secure = Yes | No | Unknown

  /** The string work on addresses, left open: normalising, and joining host and port. */
  datatype Addressing = Addressing(norm: string -> Target, hostPort: (string, string) -> string)

  function VictronBrokerOf(c: Config): string {
    if G(c, VictronBroker) != "" then G(c, VictronBroker)
    else if G(c, VictronSchema) == "dvhub" then G(c, MqttBrokerUrl)
    else if G(c, VictronHost) != "" then "mqtt://" + G(c, VictronHost) + ":1883" else ""
  }

  function CrossCheckBrokerOf(c: Config): string {
    Or(G(c, CrossCheckBroker), Or(G(c, VictronBroker),
       if G(c, VictronHost) != "" then "mqtts://" + G(c, VictronHost) + ":8883" else ""))
  }

  function WeatherBrokerOf(c: Config): string { Or(G(c, WeatherBrokerUrl), G(c, MqttBrokerUrl)) }

  /** Where each secret is sent. The general MQTT credentials serve as fallback for empty special ones. */
  function Addresses(c: Config, s: Secret, how: Addressing): seq<string> {
    match s
    case NtfyToken => [G(c, NtfyTopicUrl)]
    case EvHaToken => [G(c, EvHaUrl)]
    case EvHttpToken => [G(c, EvHttpUrl)]
    case EosRemoteToken => [G(c, EosEndpoint)]
    case Smb(_) => [G(c, SmbHost)]
    case DatabasePassword => [how.hostPort(G(c, DatabaseHost), Or(G(c, DatabasePort), "5432"))]
    case OpenEvse(_) => [G(c, OpenEvseUrl)]
    case Nrgkick(_) => [G(c, NrgkickHost)]
    case WattpilotPassword => [G(c, WattpilotHost)]
    case Mqtt(f) =>
      [G(c, MqttBrokerUrl)]
      + if G(c, WeatherProvider) == "mqtt" && Value(c, WeatherMqtt(f)) == "" then [WeatherBrokerOf(c)] else []
    case WeatherMqtt(_) => [WeatherBrokerOf(c)]
    case VictronMqtt(f) =>
      [VictronBrokerOf(c)] + if Value(c, CrossCheckMqtt(f)) == "" then [CrossCheckBrokerOf(c)] else []
    case CrossCheckMqtt(_) => [CrossCheckBrokerOf(c)]
  }

  function TlsUpgrade(from: string, to: string): bool {
    if from == "mqtt:" || from == "tcp:" then to == "mqtts:" || to == "ssl:" || to == "tls:"
    else if from == "http:" then to == "https:"
    else from == "ws:" && to == "wss:"
  }

  /** `b` was permitted before; `t` is the same service, secured as well or better. */
  predicate Permits(b: Target, t: Target) {
    && b.host == t.host
    && !(b.secure.Yes? && t.secure.No?)
    && (b.port == t.port || (b.std && t.std && TlsUpgrade(b.proto, t.proto)))
  }

  function Targets(addresses: seq<string>, how: Addressing): (r: seq<Target>)
    ensures |r| == |addresses| && forall i :: 0 <= i < |r| ==> r[i] == how.norm(addresses[i])
  {
    if addresses == [] then [] else [how.norm(addresses[0])] + Targets(addresses[1..], how)
  }

  predicate IsNewTarget(t: Target, before: seq<Target>) {
    forall b :: b in before ==> !Permits(b, t)
  }

  function TargetsOf(c: Config, s: Secret, how: Addressing): seq<Target> { Targets(Addresses(c, s, how), how) }

  predicate HasNewTarget(next: Config, current: Config, s: Secret, how: Addressing) {
    exists t :: t in TargetsOf(next, s, how) && IsNewTarget(t, TargetsOf(current, s, how))
  }

  /** Paths the draft keeps; those without a known target are of no interest here. */
  datatype Path = Listed(secret: Secret) | Unlisted(path: string)

  // ---- The specification: a least fixpoint -------------------------------------------------

  ghost function Cleared(c: Config, d: set<Secret>): Config {
    c.(secrets := map s | s in c.secrets :: if s in d then "" else c.secrets[s])
  }

  /** The kept secrets that must go once those in `d` are gone. */
  ghost predicate MustGo(next: Config, current: Config, kept: seq<Path>, how: Addressing, d: set<Secret>, s: Secret) {
    Listed(s) in kept && Value(next, s) != "" && HasNewTarget(Cleared(next, d), current, s, how)
  }

  ghost predicate Closed(next: Config, current: Config, kept: seq<Path>, how: Addressing, d: set<Secret>) {
    forall s :: MustGo(next, current, kept, how, d, s) ==> s in d
  }

  /** `d` holds exactly what must go once it is gone, and is part of every other such set. */
  ghost predicate LeastFixpoint(next: Config, current: Config, kept: seq<Path>, how: Addressing, d: set<Secret>) {
    && (forall s :: s in d <==> MustGo(next, current, kept, how, d, s))
    && (forall e: set<Secret> :: Closed(next, current, kept, how, e) ==> d <= e)
  }

  lemma ClearingOnlyAddsAddresses(c: Config, d: set<Secret>, e: set<Secret>, s: Secret, how: Addressing)
    requires d <= e
    ensures forall a :: a in Addresses(Cleared(c, d), s, how) ==> a in Addresses(Cleared(c, e), s, how)
  {
    var x, y := Cleared(c, d), Cleared(c, e);
    assert forall k :: Value(x, k) == "" ==> Value(y, k) == "";
    assert x.addresses == y.addresses;
    assert forall a :: G(x, a) == G(y, a);
  }

  lemma MoreClearedMoreMustGo(next: Config, current: Config, kept: seq<Path>, how: Addressing, d: set<Secret>,
                              e: set<Secret>, s: Secret)
    requires d <= e && MustGo(next, current, kept, how, d, s)
    ensures MustGo(next, current, kept, how, e, s)
  {
    ClearingOnlyAddsAddresses(next, d, e, s, how);
    hide Addresses, Permits, Cleared;
    NewTargetStays(Addresses(Cleared(next, d), s, how), Addresses(Cleared(next, e), s, how), TargetsOf(current, s, how),
                   how);
  }

  lemma NewTargetStays(a: seq<string>, b: seq<string>, before: seq<Target>, how: Addressing)
    requires forall x :: x in a ==> x in b
    ensures (exists t :: t in Targets(a, how) && IsNewTarget(t, before))
            ==> (exists t :: t in Targets(b, how) && IsNewTarget(t, before))
  {
    hide IsNewTarget;
    if t :| t in Targets(a, how) && IsNewTarget(t, before) {
      var i :| 0 <= i < |a| && Targets(a, how)[i] == t;
      assert a[i] in b;
      var j :| 0 <= j < |b| && b[j] == a[i];
      assert Targets(b, how)[j] == t;
    }
  }

  function Elements(dropped: seq<Secret>): set<Secret> { set s | s in dropped }

  /** Secrets of the kept paths that are still there: they bound the number of rounds. */
  ghost function Candidates(kept: seq<Path>): set<Secret> {
    set p | p in kept && p.Listed? :: p.secret
  }

  class Draft {
    var config: Config

    constructor (c: Config)
      ensures config == c
    {
      config := c;
    }

    method DropSecretsForChangedTargets(current: Config, kept: seq<Path>, how: Addressing)
      returns (dropped: seq<Secret>)
      modifies this
      ensures config == Cleared(old(config), Elements(dropped))
      ensures LeastFixpoint(old(config), current, kept, how, Elements(dropped))
      ensures forall i, j :: 0 <= i < j < |dropped| ==> dropped[i] != dropped[j]
    {
      hide MustGo, HasNewTarget, Cleared, Value;
      ghost var next := config;
      NothingDropped(next, current, kept, how);
      dropped := [];
      ClearedNothing(next);
      var changed := true;
      while changed
        invariant config == Cleared(next, Elements(dropped))
        invariant Sound(next, current, kept, how, dropped)
        invariant !changed ==> forall p :: p in kept ==> Settled(next, current, kept, how, dropped, p)
        decreases Candidates(kept) - Elements(dropped), changed
      {
        changed := false;
        ghost var start := Elements(dropped);
        var i := 0;
        while i < |kept|
          invariant 0 <= i <= |kept|
          invariant config == Cleared(next, Elements(dropped))
          invariant Sound(next, current, kept, how, dropped)
          invariant start <= Elements(dropped)
          invariant changed ==> start < Elements(dropped)
          invariant !changed ==> start == Elements(dropped)
          invariant !changed ==> forall j :: 0 <= j < i ==> Settled(next, current, kept, how, dropped, kept[j])
        {
          if kept[i].Listed? && kept[i].secret !in dropped && Value(config, kept[i].secret) != "" {
            var s := kept[i].secret;
            TestDecides(next, current, kept, how, dropped, s);
            if HasNewTarget(config, current, s, how) {
              DropOne(next, current, kept, how, dropped, s);
              config := config.(secrets := config.secrets[s := ""]);
              dropped := dropped + [s];
              changed := true;
            }
          }
          ValueCleared(next, current, kept, how, dropped, kept[i]);
          i := i + 1;
        }
        assert changed ==> start < Elements(dropped) <= Candidates(kept);
      }
      SettledIsLeast(next, current, kept, how, dropped);
    }
  }

  /** What is dropped so far had to go, in every order. */
  ghost predicate Sound(next: Config, current: Config, kept: seq<Path>, how: Addressing, dropped: seq<Secret>) {
    && (forall s :: s in dropped ==> MustGo(next, current, kept, how, Elements(dropped), s))
    && (forall i, j :: 0 <= i < j < |dropped| ==> dropped[i] != dropped[j])
    && (forall e: set<Secret> :: Closed(next, current, kept, how, e) ==> Elements(dropped) <= e)
    && Elements(dropped) <= Candidates(kept)
  }

  /** Path `p` is dropped or need not go. */
  ghost predicate Settled(next: Config, current: Config, kept: seq<Path>, how: Addressing, dropped: seq<Secret>,
                          p: Path) {
    p.Listed? && MustGo(next, current, kept, how, Elements(dropped), p.secret) ==> p.secret in dropped
  }

  lemma ClearedNothing(c: Config)
    ensures Cleared(c, Elements([])) == c
  {
  }

  lemma NothingDropped(next: Config, current: Config, kept: seq<Path>, how: Addressing)
    ensures Sound(next, current, kept, how, [])
  {
  }

  /** The loop's test on the partly cleared configuration decides whether the secret must go. */
  lemma TestDecides(next: Config, current: Config, kept: seq<Path>, how: Addressing, dropped: seq<Secret>, s: Secret)
    requires Listed(s) in kept && s !in dropped && Value(Cleared(next, Elements(dropped)), s) != ""
    ensures HasNewTarget(Cleared(next, Elements(dropped)), current, s, how)
            <==> MustGo(next, current, kept, how, Elements(dropped), s)
    ensures s in Cleared(next, Elements(dropped)).secrets
  {
  }

  lemma ValueCleared(next: Config, current: Config, kept: seq<Path>, how: Addressing, dropped: seq<Secret>, p: Path)
    ensures p.Unlisted? || p.secret in dropped || Value(Cleared(next, Elements(dropped)), p.secret) == ""
            ==> Settled(next, current, kept, how, dropped, p)
  {
  }

  lemma DropOne(next: Config, current: Config, kept: seq<Path>, how: Addressing, dropped: seq<Secret>, s: Secret)
    requires Sound(next, current, kept, how, dropped) && s !in dropped
    requires MustGo(next, current, kept, how, Elements(dropped), s)
    ensures Sound(next, current, kept, how, dropped + [s])
    ensures Elements(dropped + [s]) == Elements(dropped) + {s}
    ensures Cleared(next, Elements(dropped) + {s})
            == Cleared(next, Elements(dropped)).(secrets := Cleared(next, Elements(dropped)).secrets[s := ""])
  {
    hide MustGo;
    var d, e := Elements(dropped), Elements(dropped) + {s};
    assert Elements(dropped + [s]) == e;
    forall r | r in dropped + [s] ensures MustGo(next, current, kept, how, e, r) {
      MoreClearedMoreMustGo(next, current, kept, how, d, e, r);
    }
    forall c: set<Secret> | Closed(next, current, kept, how, c) ensures e <= c {
      MoreClearedMoreMustGo(next, current, kept, how, d, c, s);
    }
    MustGoIsKept(next, current, kept, how, d, s);
  }

  lemma MustGoIsKept(next: Config, current: Config, kept: seq<Path>, how: Addressing, d: set<Secret>, s: Secret)
    requires MustGo(next, current, kept, how, d, s)
    ensures s in Candidates(kept) && s in next.secrets
  {
    assert Listed(s) in kept;
  }

  lemma SettledIsLeast(next: Config, current: Config, kept: seq<Path>, how: Addressing, dropped: seq<Secret>)
    requires Sound(next, current, kept, how, dropped)
    requires forall p :: p in kept ==> Settled(next, current, kept, how, dropped, p)
    ensures LeastFixpoint(next, current, kept, how, Elements(dropped))
  {
    var d := Elements(dropped);
    forall s | MustGo(next, current, kept, how, d, s) ensures s in d {
      assert Settled(next, current, kept, how, dropped, Listed(s));
    }
  }

  // ---- Consequences ----------------------------------------------------------------------

  /** The order of the kept paths does not matter, nor do repetitions. */
  lemma OrderDoesNotMatter(next: Config, current: Config, kept: seq<Path>, other: seq<Path>, how: Addressing,
                           d: set<Secret>, e: set<Secret>)
    requires forall p :: p in kept <==> p in other
    requires LeastFixpoint(next, current, kept, how, d) && LeastFixpoint(next, current, other, how, e)
    ensures d == e
  {
    assert forall c, s :: MustGo(next, current, kept, how, c, s) <==> MustGo(next, current, other, how, c, s);
    assert Closed(next, current, kept, how, e) && Closed(next, current, other, how, d);
  }

  /** A plain connection and the secured ones that may replace it. */
  const UPGRADES: set<(string, string)> := {
    ("mqtt:", "mqtts:"), ("mqtt:", "ssl:"), ("mqtt:", "tls:"), ("tcp:", "mqtts:"), ("tcp:", "ssl:"), ("tcp:", "tls:"),
    ("http:", "https:"), ("ws:", "wss:")
  }

  /** The same host, not less secure, on the same port or from standard port to standard port by an upgrade. */
  ghost predicate SameService(b: Target, t: Target) {
    && b.host == t.host
    && (t.secure.No? ==> !b.secure.Yes?)
    && (b.port != t.port ==> b.std && t.std && (b.proto, t.proto) in UPGRADES)
  }

  lemma PermitsTheSameService(b: Target, t: Target)
    ensures Permits(b, t) <==> SameService(b, t)
  {
  }

  /** Secrets that go to one configured address, whatever the other secrets are. */
  const HOMES: map<Secret, Address> := map[
    NtfyToken := NtfyTopicUrl, EvHaToken := EvHaUrl, EvHttpToken := EvHttpUrl, EosRemoteToken := EosEndpoint,
    Smb(Username) := SmbHost, Smb(Password) := SmbHost, OpenEvse(Username) := OpenEvseUrl,
    OpenEvse(Password) := OpenEvseUrl, Nrgkick(Username) := NrgkickHost, Nrgkick(Password) := NrgkickHost,
    WattpilotPassword := WattpilotHost
  ]

  lemma OneTarget(c: Config, s: Secret, a: string, how: Addressing)
    requires Addresses(c, s, how) == [a]
    ensures TargetsOf(c, s, how) == [how.norm(a)]
  {
  }

  lemma OneTargetIsNewIff(next: Config, current: Config, s: Secret, a: string, b: string, how: Addressing)
    requires Addresses(next, s, how) == [b] && Addresses(current, s, how) == [a]
    ensures HasNewTarget(next, current, s, how) <==> !SameService(how.norm(a), how.norm(b))
  {
    OneTarget(next, s, b, how);
    OneTarget(current, s, a, how);
    PermitsTheSameService(how.norm(a), how.norm(b));
    hide Permits, SameService;
    assert how.norm(b) in [how.norm(b)];
  }

  /** The first of the addresses that is there, or the last. */
  ghost function FirstOf(a: string, b: string, c: string): string {
    if a != "" then a else if b != "" then b else c
  }

  /** The one address of a secret; the general MQTT and Victron credentials may have two. */
  ghost function Home(c: Config, s: Secret, how: Addressing): Option<string> {
    match s
    case Mqtt(_) => None
    case VictronMqtt(_) => None
    case WeatherMqtt(_) => Some(FirstOf(G(c, WeatherBrokerUrl), G(c, MqttBrokerUrl), ""))
    case CrossCheckMqtt(_) =>
      var host := G(c, VictronHost);
      Some(FirstOf(G(c, CrossCheckBroker), G(c, VictronBroker),
                   if host == "" then "" else "mqtts://" + host + ":8883"))
    case DatabasePassword => Some(how.hostPort(G(c, DatabaseHost), FirstOf(G(c, DatabasePort), "5432", "")))
    case _ => if s in HOMES then Some(G(c, HOMES[s])) else None
  }

  lemma HomeIsTheAddress(c: Config, s: Secret, how: Addressing)
    ensures Home(c, s, how).Some? <==> !s.Mqtt? && !s.VictronMqtt?
    ensures Home(c, s, how).Some? ==> Addresses(c, s, how) == [Home(c, s, how).value]
  {
    match s
    case Smb(f) => assert f == Username || f == Password;
    case OpenEvse(f) => assert f == Username || f == Password;
    case Nrgkick(f) => assert f == Username || f == Password;
    case _ =>
  }

  lemma HomeIgnoresSecrets(c: Config, d: set<Secret>, s: Secret, how: Addressing)
    ensures Home(Cleared(c, d), s, how) == Home(c, s, how)
  {
  }

  /**
    A secret with one address is cleared if and only if it was kept unchanged, is there, and its new
    address is not the same service as the one in force.
   */
  lemma ClearedIffItsHomeChanges(next: Config, current: Config, kept: seq<Path>, how: Addressing, d: set<Secret>,
                                 s: Secret)
    requires LeastFixpoint(next, current, kept, how, d) && !s.Mqtt? && !s.VictronMqtt?
    ensures Home(next, s, how).Some? && Home(current, s, how).Some?
    ensures s in d <==>
            Listed(s) in kept && Value(next, s) != ""
            && !SameService(how.norm(Home(current, s, how).value), how.norm(Home(next, s, how).value))
  {
    var c := Cleared(next, d);
    HomeIgnoresSecrets(next, d, s, how);
    hide Addresses, SameService, HasNewTarget, Home;
    HomeIsTheAddress(c, s, how);
    HomeIsTheAddress(current, s, how);
    OneTargetIsNewIff(c, current, s, Home(current, s, how).value, Home(next, s, how).value, how);
  }

  /** The Victron broker: its own, or the general one, or the device. */
  ghost function VictronHome(c: Config): string {
    var host := G(c, VictronHost);
    FirstOf(G(c, VictronBroker),
            if G(c, VictronSchema) == "dvhub" then G(c, MqttBrokerUrl)
            else if host == "" then "" else "mqtt://" + host + ":1883", "")
  }

  /** The second credential that takes over where the first is not there. */
  function Special(s: Secret): Secret
    requires s.Mqtt? || s.VictronMqtt?
  {
    if s.Mqtt? then WeatherMqtt(s.cred) else CrossCheckMqtt(s.cred)
  }

  /** The general credential also goes to the special one's address: in use, without a credential of its own. */
  ghost predicate FallsBack(c: Config, s: Secret)
    requires s.Mqtt? || s.VictronMqtt?
  {
    Value(c, Special(s)) == "" && (s.Mqtt? ==> G(c, WeatherProvider) == "mqtt")
  }

  ghost function OwnHome(c: Config, s: Secret): string
    requires s.Mqtt? || s.VictronMqtt?
  {
    if s.Mqtt? then G(c, MqttBrokerUrl) else VictronHome(c)
  }

  /** A general credential went to this service before, as such or as a fallback. */
  ghost predicate WentTo(c: Config, s: Secret, t: Target, how: Addressing)
    requires s.Mqtt? || s.VictronMqtt?
  {
    || SameService(how.norm(OwnHome(c, s)), t)
    || (FallsBack(c, s) && SameService(how.norm(Home(c, Special(s), how).value), t))
  }

  lemma GeneralAddresses(c: Config, s: Secret, how: Addressing)
    requires s.Mqtt? || s.VictronMqtt?
    ensures Home(c, Special(s), how).Some?
    ensures Addresses(c, s, how)
            == [OwnHome(c, s)] + if FallsBack(c, s) then [Home(c, Special(s), how).value] else []
  {
    HomeIsTheAddress(c, Special(s), how);
  }

  lemma TargetsInFront(a: string, b: seq<string>, how: Addressing)
    ensures Targets([a] + b, how) == [how.norm(a)] + Targets(b, how)
  {
    assert ([a] + b)[1..] == b;
  }

  lemma GeneralTargets(c: Config, s: Secret, how: Addressing)
    requires s.Mqtt? || s.VictronMqtt?
    ensures Home(c, Special(s), how).Some?
    ensures forall t :: t in TargetsOf(c, s, how) <==>
              t == how.norm(OwnHome(c, s)) || (FallsBack(c, s) && t == how.norm(Home(c, Special(s), how).value))
  {
    GeneralAddresses(c, s, how);
    hide Addresses, Home, OwnHome, FallsBack;
    var more := if FallsBack(c, s) then [Home(c, Special(s), how).value] else [];
    TargetsInFront(OwnHome(c, s), more, how);
    if FallsBack(c, s) { TargetsInFront(more[0], [], how); }
    assert Targets([], how) == [];
  }

  lemma NewIffNeverWent(c: Config, s: Secret, t: Target, how: Addressing)
    requires s.Mqtt? || s.VictronMqtt?
    ensures Home(c, Special(s), how).Some?
    ensures IsNewTarget(t, TargetsOf(c, s, how)) <==> !WentTo(c, s, t, how)
  {
    GeneralTargets(c, s, how);
    PermitsTheSameService(how.norm(OwnHome(c, s)), t);
    PermitsTheSameService(how.norm(Home(c, Special(s), how).value), t);
    hide Home, OwnHome, FallsBack, Permits, SameService, TargetsOf;
  }

  lemma FallsBackOnceCleared(c: Config, d: set<Secret>, s: Secret)
    requires s.Mqtt? || s.VictronMqtt?
    ensures OwnHome(Cleared(c, d), s) == OwnHome(c, s)
    ensures FallsBack(Cleared(c, d), s) <==>
            (Special(s) in d || Value(c, Special(s)) == "") && (s.Mqtt? ==> G(c, WeatherProvider) == "mqtt")
  {
  }

  lemma GeneralHasNewTargetIff(c: Config, current: Config, s: Secret, how: Addressing)
    requires s.Mqtt? || s.VictronMqtt?
    ensures Home(c, Special(s), how).Some? && Home(current, Special(s), how).Some?
    ensures HasNewTarget(c, current, s, how) <==>
            || !WentTo(current, s, how.norm(OwnHome(c, s)), how)
            || (FallsBack(c, s) && !WentTo(current, s, how.norm(Home(c, Special(s), how).value), how))
  {
    GeneralTargets(c, s, how);
    NewIffNeverWent(current, s, how.norm(OwnHome(c, s)), how);
    NewIffNeverWent(current, s, how.norm(Home(c, Special(s), how).value), how);
    hide Home, OwnHome, WentTo, TargetsOf, IsNewTarget, FallsBack;
  }

  /**
    The fallback, exactly: a general credential is cleared if and only if it was kept, is there, and
    goes to a service it never went to before, be it its own or, where the special credential is empty
    or cleared, the special one's.
   */
  lemma GeneralIsClearedIff(next: Config, current: Config, kept: seq<Path>, how: Addressing, d: set<Secret>, s: Secret)
    requires LeastFixpoint(next, current, kept, how, d) && (s.Mqtt? || s.VictronMqtt?)
    ensures Home(next, Special(s), how).Some? && Home(current, Special(s), how).Some?
    ensures s in d <==>
            && Listed(s) in kept && Value(next, s) != ""
            && (|| !WentTo(current, s, how.norm(OwnHome(next, s)), how)
                || (&& (Special(s) in d || Value(next, Special(s)) == "")
                    && (s.Mqtt? ==> G(next, WeatherProvider) == "mqtt")
                    && !WentTo(current, s, how.norm(Home(next, Special(s), how).value), how)))
  {
    HomeIgnoresSecrets(next, d, Special(s), how);
    FallsBackOnceCleared(next, d, s);
    hide Home, OwnHome, WentTo, HasNewTarget, FallsBack, Cleared;
    GeneralHasNewTargetIff(Cleared(next, d), current, s, how);
  }

  /** Afterwards every kept secret that is still there stays with a service it went to before, fallbacks included. */
  lemma RemainingSecretsStayHome(next: Config, current: Config, kept: seq<Path>, how: Addressing, d: set<Secret>,
                                 s: Secret, t: Target)
    requires LeastFixpoint(next, current, kept, how, d)
    requires Listed(s) in kept && Value(Cleared(next, d), s) != "" && t in TargetsOf(Cleared(next, d), s, how)
    ensures exists b :: b in TargetsOf(current, s, how) && SameService(b, t)
  {
    assert !MustGo(next, current, kept, how, d, s);
    var b :| b in TargetsOf(current, s, how) && Permits(b, t);
    PermitsTheSameService(b, t);
  }

  /** Nothing is cleared if the addresses and secrets are those that are in force. */
  lemma UnchangedClearsNothing(current: Config, kept: seq<Path>, how: Addressing, d: set<Secret>)
    requires LeastFixpoint(current, current, kept, how, d)
    ensures d == {}
  {
    ClearedNothing(current);
    assert Elements([]) == {};
    forall s ensures !MustGo(current, current, kept, how, {}, s) {
      forall t | t in TargetsOf(current, s, how) ensures !IsNewTarget(t, TargetsOf(current, s, how)) {
        assert Permits(t, t);
      }
    }
    assert Closed(current, current, kept, how, {});
  }
}
