/** Who is notified, and where (src/bot/logic.py). */
module Routing {
  import opened Wrappers
  import opened Text

  datatype Kind = KNew | KInfo | KReminder | KOverdue | KStatusChange | KUpdated | KReopened

  function KindName(kind: Kind): string {
    match kind
    case KNew => "new"
    case KInfo => "info"
    case KReminder => "reminder"
    case KOverdue => "overdue"
    case KStatusChange => "status_change"
    case KUpdated => "issue_updated"
    case KReopened => "reopened"
  }

  const STATUS_NEW := "Новая"
  const STATUS_INFO_PROVIDED := "Информация предоставлена"
  const STATUS_REOPENED := "Открыто повторно"
  const STATUS_RV := "Передано в работу.РВ"
  const LEGACY_VERSION_FALLBACK_KEY := "РЕД ОС"

  datatype Route = Route(key: string, room: string)

  /** Delivery settings of a group: its own subscriptions and schedule. */
  datatype Delivery = Delivery(notify: Option<seq<string>>, workHours: string,
                               workDays: Option<seq<int>>, dnd: bool)

  /** One user's configuration. An absent or null string field is "". */
  datatype UserCfg = UserCfg(
    redmineId: int, room: string, notify: Option<seq<string>>,
    groupId: Option<int>, groupRoom: string, groupDelivery: Option<Delivery>,
    versionRoutes: seq<Route>, workHours: string, workDays: Option<seq<int>>, dnd: bool)

  /** The maps shared by all users. */
  datatype Directory = Directory(
    users: seq<UserCfg>, statusRooms: map<string, string>, versionRooms: map<string, string>)

  predicate ShouldNotify(cfg: UserCfg, kind: Kind) {
    var subscribed := cfg.notify.GetOr(["all"]);
    "all" in subscribed || KindName(kind) in subscribed
  }

  function GroupRoom(cfg: UserCfg): string {
    Strip(cfg.groupRoom)
  }

  /** The configuration in force for messages to `room`: the group's own
      delivery settings in the group's room, the user's everywhere else. */
  function CfgForRoom(cfg: UserCfg, room: string): (r: UserCfg)
    ensures Strip(room) != GroupRoom(cfg) || cfg.groupDelivery.None? ==> r == cfg
    ensures Strip(room) == GroupRoom(cfg) != "" && cfg.groupDelivery.Some? ==>
      var gd := cfg.groupDelivery.value;
      && r.notify == Some(if gd.notify.Some? then gd.notify.value else ["all"])
      && (r.workHours, r.workDays, r.dnd) == (gd.workHours, gd.workDays, gd.dnd)
    ensures r.room == cfg.room && GroupRoom(r) == GroupRoom(cfg)
  {
    var target := Strip(room);
    if target == "" || GroupRoom(cfg) == "" || target != GroupRoom(cfg) || cfg.groupDelivery.None? then cfg
    else
      var gd := cfg.groupDelivery.value;
      cfg.(notify := Some(gd.notify.GetOr(["all"])), workHours := gd.workHours,
           workDays := gd.workDays, dnd := gd.dnd)
  }

  /** Is the group's room subscribed to `kind` for this user's issues? */
  predicate GroupWants(cfg: UserCfg, kind: Kind) {
    GroupRoom(cfg) != "" && ShouldNotify(CfgForRoom(cfg, GroupRoom(cfg)), kind)
  }

  /** The part of a configuration that the processing of an issue consults. */
  datatype Policy = Policy(room: string, wants: set<Kind>, groupRoom: string, groupWantsNew: bool)

  function PolicyOf(cfg: UserCfg): Policy {
    Policy(cfg.room, (set kind: Kind | ShouldNotify(cfg, kind)), GroupRoom(cfg), GroupWants(cfg, KNew))
  }

  /** With a subscription list of its own, the group decides by that list
      alone; the user's personal list has no say in the group's room. */
  lemma GroupDecidesForItsRoom(cfg: UserCfg, other: Option<seq<string>>, kind: Kind)
    requires cfg.groupDelivery.Some?
    ensures GroupWants(cfg, kind) <==> GroupWants(cfg.(notify := other), kind)
  {
    StripFixpoint(GroupRoom(cfg));
    assert GroupRoom(cfg.(notify := other)) == GroupRoom(cfg);
  }

  // ---- rooms of the members of one's group ----

  function MemberRooms(cfg: UserCfg, users: seq<UserCfg>): set<string> {
    if cfg.groupId.None? then {}
    else set u | u in users && u.groupId == cfg.groupId && Strip(u.room) != "" :: Strip(u.room)
  }

  lemma MemberRoomsStep(cfg: UserCfg, users: seq<UserCfg>, u: UserCfg)
    requires cfg.groupId.Some?
    ensures MemberRooms(cfg, users + [u]) == MemberRooms(cfg, users)
      + if u.groupId == cfg.groupId && Strip(u.room) != "" then {Strip(u.room)} else {}
  {
    forall r
      ensures r in MemberRooms(cfg, users + [u]) <==>
        r in MemberRooms(cfg, users) || (u.groupId == cfg.groupId && r != "" && r == Strip(u.room))
    {
      assert forall w :: w in users + [u] <==> w in users || w == u;
    }
  }

  method GroupMemberRooms(cfg: UserCfg, users: seq<UserCfg>) returns (out: set<string>)
    ensures out == MemberRooms(cfg, users)
  {
    out := {};
    if cfg.groupId.None? { return; }
    for i := 0 to |users|
      invariant out == MemberRooms(cfg, users[..i])
    {
      assert users[..i + 1] == users[..i] + [users[i]];
      MemberRoomsStep(cfg, users[..i], users[i]);
      if users[i].groupId == cfg.groupId {
        var r := Strip(users[i].room);
        if r != "" { out := out + {r}; }
      }
    }
    assert users[..|users|] == users;
  }

  // ---- additional rooms by version and by status ----

  /** The room a version route leads to, "" when it does not apply: its key
      must occur in the version's name, whatever the case. */
  function Target(key: string, room: string, version: string): string {
    if Strip(key) != "" && Contains(Lower(version), Lower(Strip(key))) then Strip(room) else ""
  }

  function RouteRooms(routes: seq<Route>, version: string): set<string> {
    (set r | r in routes :: Target(r.key, r.room, version)) - {""}
  }

  function MapRooms(rooms: map<string, string>, keys: set<string>, version: string): set<string>
    requires keys <= rooms.Keys
  {
    (set k | k in keys :: Target(k, rooms[k], version)) - {""}
  }

  function FallbackRooms(rooms: map<string, string>): set<string> {
    var r := if LEGACY_VERSION_FALLBACK_KEY in rooms then Strip(rooms[LEGACY_VERSION_FALLBACK_KEY]) else "";
    if r == "" then {} else {r}
  }

  function VersionRooms(version: Option<string>, cfg: UserCfg, rooms: map<string, string>): set<string> {
    var name := version.GetOr("");
    if Strip(name) == "" then FallbackRooms(rooms)
    else RouteRooms(cfg.versionRoutes, name) + MapRooms(rooms, rooms.Keys, name)
  }

  method RouteRoomsOf(routes: seq<Route>, version: string) returns (rooms: set<string>)
    ensures rooms == RouteRooms(routes, version)
  {
    rooms := {};
    for i := 0 to |routes|
      invariant rooms == RouteRooms(routes[..i], version)
    {
      assert routes[..i + 1] == routes[..i] + [routes[i]];
      var room := Target(routes[i].key, routes[i].room, version);
      if room != "" {
        rooms := rooms + {room};
      }
    }
    assert routes[..|routes|] == routes;
  }

  method MapRoomsOf(versionRooms: map<string, string>, name: string) returns (rooms: set<string>)
    ensures rooms == MapRooms(versionRooms, versionRooms.Keys, name)
  {
    rooms := {};
    var seen: set<string> := {};
    while seen != versionRooms.Keys
      invariant seen <= versionRooms.Keys
      invariant rooms == MapRooms(versionRooms, seen, name)
      decreases versionRooms.Keys - seen
    {
      var key := Pick(versionRooms.Keys - seen);
      var room := Target(key, versionRooms[key], name);
      if room != "" {
        rooms := rooms + {room};
      }
      seen := seen + {key};
    }
  }

  method ExtraRoomsForVersion(version: Option<string>, cfg: UserCfg, versionRooms: map<string, string>)
    returns (rooms: set<string>)
    ensures rooms == VersionRooms(version, cfg, versionRooms)
  {
    var name := version.GetOr("");
    if Strip(name) == "" {
      return FallbackRooms(versionRooms);
    }
    rooms := RouteRoomsOf(cfg.versionRoutes, name);
    var byMap := MapRoomsOf(versionRooms, name);
    rooms := rooms + byMap;
  }

  /** Additional rooms of a first-seen issue: by version, and for the hand-over
      status also the room configured for that status. */
  function ExtraRooms(status: string, version: Option<string>, cfg: UserCfg, dir: Directory): set<string> {
    var byVersion := VersionRooms(version, cfg, dir.versionRooms);
    if status == STATUS_RV && STATUS_RV in dir.statusRooms && dir.statusRooms[STATUS_RV] != ""
    then {dir.statusRooms[STATUS_RV]} + byVersion
    else byVersion
  }

  // ---- subscriptions and routes by their strings ----

  /** The notifications a user wants, by the strings of the list; no list means all, and so does "all" in it. */
  lemma WantedByName(cfg: UserCfg)
    ensures var wants := PolicyOf(cfg).wants;
            var list := if cfg.notify.Some? then cfg.notify.value else ["all"];
            var all := "all" in list;
            && (KNew in wants <==> all || "new" in list)
            && (KInfo in wants <==> all || "info" in list)
            && (KReminder in wants <==> all || "reminder" in list)
            && (KOverdue in wants <==> all || "overdue" in list)
            && (KStatusChange in wants <==> all || "status_change" in list)
            && (KUpdated in wants <==> all || "issue_updated" in list)
            && (KReopened in wants <==> all || "reopened" in list)
  {
  }

  /** What a list of one entry wants; of no list at all, everything. */
  lemma OneWanted(cfg: UserCfg, kind: Kind)
    ensures cfg.notify.None? || cfg.notify == Some(["all"]) ==> kind in PolicyOf(cfg).wants
    ensures cfg.notify == Some(["overdue"]) ==> (kind in PolicyOf(cfg).wants <==> kind == KOverdue)
    ensures cfg.notify == Some([]) ==> kind !in PolicyOf(cfg).wants
  {
    WantedByName(cfg);
  }

  /** The group's room hears of new issues exactly when there is one and the list in force there wants them. */
  lemma GroupWantsByName(cfg: UserCfg)
    ensures var list := if cfg.groupDelivery.Some? then cfg.groupDelivery.value.notify else cfg.notify;
            PolicyOf(cfg).groupWantsNew
            <==> Strip(cfg.groupRoom) != "" && (list.Some? ==> "all" in list.value || "new" in list.value)
    ensures PolicyOf(cfg).room == cfg.room && PolicyOf(cfg).groupRoom == Strip(cfg.groupRoom)
  {
    hide Strip;
    StripFixpoint(GroupRoom(cfg));
  }

  /** The key without its white space occurs in the name at place `at`, letter for letter but for case. */
  predicate StandsAt(key: string, name: string, at: nat) {
    && at + |Strip(key)| <= |name|
    && forall j | 0 <= j < |Strip(key)| :: LowerChar(name[at + j]) == LowerChar(Strip(key)[j])
  }

  predicate Names(key: string, name: string) {
    Strip(key) != "" && exists at | 0 <= at <= |name| :: StandsAt(key, name, at)
  }

  lemma OccursLower(key: string, name: string, at: nat)
    requires at <= |name|
    ensures OccursAt(Lower(name), Lower(Strip(key)), at) <==> StandsAt(key, name, at)
  {
    hide Strip, LowerChar;
    SameLowered(name, Strip(key), at);
  }

  lemma SameLowered(name: string, key: string, at: nat)
    requires at <= |name|
    ensures OccursAt(Lower(name), Lower(key), at) <==>
      at + |key| <= |name| && forall j | 0 <= j < |key| :: LowerChar(name[at + j]) == LowerChar(key[j])
  {
    hide LowerChar;
    if at + |key| <= |name| {
      var n, k := Lower(name)[at..at + |key|], Lower(key);
      assert forall j | 0 <= j < |key| :: n[j] == LowerChar(name[at + j]) && k[j] == LowerChar(key[j]);
      if forall j | 0 <= j < |key| :: LowerChar(name[at + j]) == LowerChar(key[j]) {
        assert n == k;
      }
    }
  }

  lemma TargetExactly(key: string, room: string, name: string)
    ensures Target(key, room, name) == if Names(key, name) then Strip(room) else ""
  {
    hide Lower, LowerChar, OccursAt, StandsAt, Strip;
    forall at | 0 <= at <= |name|
      ensures OccursAt(Lower(name), Lower(Strip(key)), at) <==> StandsAt(key, name, at)
    {
      OccursLower(key, name, at);
    }
  }

  /** Some route, or some entry of the shared map, whose key occurs in the version's name leads to the room. */
  predicate RoutedTo(cfg: UserCfg, dir: Directory, name: string, room: string) {
    || (exists r :: r in cfg.versionRoutes && Names(r.key, name) && Strip(r.room) == room)
    || (exists k :: k in dir.versionRooms && Names(k, name) && Strip(dir.versionRooms[k]) == room)
  }

  /** An additional room is reached exactly through a key that occurs in the version's
      name, whatever the case; without a version through the map's fallback key alone;
      and in the status "handed over" also through that status. */
  lemma ExtraRoomsExactly(status: string, version: Option<string>, cfg: UserCfg, dir: Directory, room: string)
    ensures room in ExtraRooms(status, version, cfg, dir) <==>
      && room != ""
      && (|| (status == STATUS_RV && STATUS_RV in dir.statusRooms && dir.statusRooms[STATUS_RV] == room)
          || var name := version.GetOr("");
             if Blank(name) then
               LEGACY_VERSION_FALLBACK_KEY in dir.versionRooms
               && Strip(dir.versionRooms[LEGACY_VERSION_FALLBACK_KEY]) == room
             else RoutedTo(cfg, dir, name, room))
  {
    hide Target, Names, Strip;
    var name := version.GetOr("");
    BlankStrips(name);
    forall r | r in cfg.versionRoutes
      ensures Target(r.key, r.room, name) == if Names(r.key, name) then Strip(r.room) else ""
    {
      TargetExactly(r.key, r.room, name);
    }
    forall k | k in dir.versionRooms
      ensures Target(k, dir.versionRooms[k], name) == if Names(k, name) then Strip(dir.versionRooms[k]) else ""
    {
      TargetExactly(k, dir.versionRooms[k], name);
    }
  }

  lemma BlankStrips(s: string)
    ensures Strip(s) == "" <==> Blank(s)
  {
    if Blank(s) {
      StripOf(s, "", "");
      assert s + "" + "" == s;
    } else {
      KeepsInk(s);
    }
  }

  lemma KeepsInk(s: string)
    requires !Blank(s)
    ensures Strip(s) != ""
  {
    InkOnLeft(s);
    InkOnRight(StripLeft(s));
  }

  lemma {:induction false} InkOnLeft(s: string)
    requires !Blank(s)
    ensures !Blank(StripLeft(s))
  {
    if IsSpace(s[0]) {
      assert s == [s[0]] + s[1..];
      InkOnLeft(s[1..]);
    }
  }

  lemma {:induction false} InkOnRight(s: string)
    requires !Blank(s)
    ensures StripRight(s) != ""
  {
    var n := |s| - 1;
    if IsSpace(s[n]) {
      assert s == s[..n] + [s[n]];
      InkOnRight(s[..n]);
    }
  }
}
