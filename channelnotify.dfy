/**
 * The channel notification plugin: configured channels ping their roles
 * on a message, at most once per cooldown. A guild's configuration and
 * its in-memory last-ping times are one `ChannelNotify` object.
 *
 * The clock is an integer count of microseconds, the resolution of
 * Python's `datetime`; cooldowns are stored in seconds.
 */
module ChannelNotify {
  import opened Wrappers
  import opened Text

  /** Microseconds per second. */
  const Second := 1_000_000
  /** The cooldown a guild starts with, in seconds. */
  const DefaultCooldown := 300

  datatype ChannelConfig = ChannelConfig(roles: seq<int>, cooldown: int)

  /**
   * The cooldown gate: a channel that never pinged, or whose last ping
   * is at least the cooldown ago, may ping again.
   */
  predicate Due(last: Option<int>, now: int, cooldown: int)
  {
    last.None? || now - last.value >= cooldown * Second
  }

  /** The times, among a channel's messages, at which it pings. */
  function Pinged(times: seq<int>, cooldown: int, last: Option<int>): (r: seq<int>)
    ensures |r| <= |times|
    ensures forall x :: x in r ==> x in times
  {
    if times == [] then []
    else if Due(last, times[0], cooldown) then [times[0]] + Pinged(times[1..], cooldown, Some(times[0]))
    else Pinged(times[1..], cooldown, last)
  }

  /** The first ping is due against the last ping before it. */
  lemma {:induction false} PingedFirstDue(times: seq<int>, cooldown: int, last: Option<int>)
    requires Pinged(times, cooldown, last) != []
    ensures Due(last, Pinged(times, cooldown, last)[0], cooldown)
  {
    if !Due(last, times[0], cooldown) {
      PingedFirstDue(times[1..], cooldown, last);
    }
  }

  /** Consecutive pings of a channel are at least its cooldown apart. */
  lemma {:induction false} PingsSpaced(times: seq<int>, cooldown: int, last: Option<int>)
    ensures var r := Pinged(times, cooldown, last);
      forall i :: 0 <= i < |r| - 1 ==> r[i + 1] - r[i] >= cooldown * Second
  {
    if times != [] {
      if Due(last, times[0], cooldown) {
        var rest := Pinged(times[1..], cooldown, Some(times[0]));
        PingsSpaced(times[1..], cooldown, Some(times[0]));
        if rest != [] {
          PingedFirstDue(times[1..], cooldown, Some(times[0]));
        }
        var r := [times[0]] + rest;
        forall i | 0 <= i < |r| - 1 ensures r[i + 1] - r[i] >= cooldown * Second {
          if i > 0 {
            assert r[i] == rest[i - 1] && r[i + 1] == rest[i];
          }
        }
      } else {
        assert Pinged(times, cooldown, last) == Pinged(times[1..], cooldown, last);
        PingsSpaced(times[1..], cooldown, last);
      }
    }
  }

  /** The seconds part of the cooldown display: nothing, or ` {s}s`. */
  function SecondsText(s: int): string
  {
    if s > 0 then " " + IntToString(s) + "s" else ""
  }

  /** `{m}m {s}s`, or `{m}m` when no seconds are left over. */
  function CooldownText(cooldown: int): (r: string)
    ensures StartsWith(r, IntToString(cooldown / 60) + "m")
    ensures cooldown % 60 == 0 <==> r == IntToString(cooldown / 60) + "m"
  {
    IntToString(cooldown / 60) + ("m" + SecondsText(cooldown % 60))
  }

  /** Digits followed by a non-digit split in one way only. */
  lemma DigitsPrefix(d1: string, r1: string, d2: string, r2: string)
    requires forall i :: 0 <= i < |d1| ==> IsDigit(d1[i])
    requires forall i :: 0 <= i < |d2| ==> IsDigit(d2[i])
    requires r1 != [] && !IsDigit(r1[0]) && r2 != [] && !IsDigit(r2[0])
    requires d1 + r1 == d2 + r2
    ensures d1 == d2 && r1 == r2
  {
    assert d1 == (d1 + r1)[..|d1|];
    assert d2 == (d2 + r2)[..|d2|];
    assert r1 == (d1 + r1)[|d1|..];
    assert r2 == (d2 + r2)[|d2|..];
  }

  /** The seconds part determines the seconds. */
  lemma SecondsTextInjective(a: int, b: int)
    requires a >= 0 && b >= 0
    requires SecondsText(a) == SecondsText(b)
    ensures a == b
  {
    if a > 0 && b > 0 {
      var sa, sb := IntToString(a), IntToString(b);
      assert SecondsText(a)[1..|SecondsText(a)| - 1] == sa;
      assert SecondsText(b)[1..|SecondsText(b)| - 1] == sb;
      IntToStringRoundTrip(a);
      IntToStringRoundTrip(b);
    }
  }

  /** Distinct non-negative cooldowns are shown differently. */
  lemma CooldownTextInjective(a: int, b: int)
    requires a >= 0 && b >= 0
    requires CooldownText(a) == CooldownText(b)
    ensures a == b
  {
    var ma, mb := IntToString(a / 60), IntToString(b / 60);
    var ta, tb := "m" + SecondsText(a % 60), "m" + SecondsText(b % 60);
    assert ma == NatToDigits(a / 60) && mb == NatToDigits(b / 60);
    DigitsPrefix(ma, ta, mb, tb);
    IntToStringRoundTrip(a / 60);
    IntToStringRoundTrip(b / 60);
    assert SecondsText(a % 60) == ta[1..] == tb[1..] == SecondsText(b % 60);
    SecondsTextInjective(a % 60, b % 60);
  }

  datatype AddReply = NoRoles | Configured(cooldown: int)
  datatype CooldownReply = Negative | NotConfigured | CooldownSet(seconds: int)

  class ChannelNotify {
    /** `channels`: channel id to its roles and cooldown in seconds. */
    var channels: map<int, ChannelConfig>
    var defaultCooldown: int
    /** `last_ping` for this guild: channel id to the time of its last ping. */
    var lastPing: map<int, int>

    /** Cooldowns are never negative, configured channels have roles, and only they have ping times. */
    ghost predicate Valid()
      reads this
    {
      && defaultCooldown >= 0
      && (forall c :: c in channels ==> channels[c].cooldown >= 0 && channels[c].roles != [])
      && lastPing.Keys <= channels.Keys
    }

    constructor()
      ensures Valid()
      ensures channels == map[] && defaultCooldown == DefaultCooldown && lastPing == map[]
    {
      channels := map[];
      defaultCooldown := DefaultCooldown;
      lastPing := map[];
    }

    /**
     * `_add_channel`: at least one role; a new channel takes the default
     * cooldown, a configured one keeps its own; the roles are replaced.
     */
    method AddChannel(channel: int, roles: seq<int>) returns (reply: AddReply)
      requires Valid()
      modifies this`channels
      ensures Valid()
      ensures roles == [] ==> reply == NoRoles && channels == old(channels)
      ensures roles != [] ==>
        var cooldown := if channel in old(channels) then old(channels)[channel].cooldown else defaultCooldown;
        && channels == old(channels)[channel := ChannelConfig(roles, cooldown)]
        && reply == Configured(cooldown)
    {
      if roles == [] {
        return NoRoles;
      }
      if channel !in channels {
        channels := channels[channel := ChannelConfig([], defaultCooldown)];
      }
      channels := channels[channel := channels[channel].(roles := roles)];
      reply := Configured(channels[channel].cooldown);
    }

    /** `_remove_channel`: forgets the channel's configuration and its last ping. */
    method RemoveChannel(channel: int) returns (found: bool)
      requires Valid()
      modifies this`channels, this`lastPing
      ensures Valid()
      ensures found <==> channel in old(channels)
      ensures channels == old(channels) - {channel}
      ensures lastPing == old(lastPing) - {channel}
    {
      found := channel in channels;
      if !found {
        return;
      }
      channels := channels - {channel};
      if channel in lastPing {
        lastPing := lastPing - {channel};
      }
    }

    /** `_set_cooldown`: a non-negative number of minutes, stored in seconds, for a configured channel. */
    method SetCooldown(channel: int, minutes: int) returns (reply: CooldownReply)
      requires Valid()
      modifies this`channels
      ensures Valid()
      ensures reply == Negative <==> minutes < 0
      ensures reply == NotConfigured <==> minutes >= 0 && channel !in old(channels)
      ensures reply.CooldownSet? ==>
        && reply.seconds == minutes * 60
        && channels == old(channels)[channel := old(channels)[channel].(cooldown := minutes * 60)]
      ensures !reply.CooldownSet? ==> channels == old(channels)
    {
      if minutes < 0 {
        return Negative;
      }
      if channel !in channels {
        return NotConfigured;
      }
      channels := channels[channel := channels[channel].(cooldown := minutes * 60)];
      reply := CooldownSet(minutes * 60);
    }

    /** `_set_default_cooldown`: a non-negative number of minutes, stored in seconds. */
    method SetDefaultCooldown(minutes: int) returns (reply: CooldownReply)
      requires Valid()
      modifies this`defaultCooldown
      ensures Valid()
      ensures reply == Negative <==> minutes < 0
      ensures reply != Negative ==> reply == CooldownSet(minutes * 60) && defaultCooldown == minutes * 60
      ensures reply == Negative ==> defaultCooldown == old(defaultCooldown)
    {
      if minutes < 0 {
        return Negative;
      }
      defaultCooldown := minutes * 60;
      reply := CooldownSet(defaultCooldown);
    }

    /**
     * A message: a configured channel with roles that still exist pings
     * them when its cooldown has passed, and every attempted ping records
     * the time. `roleExists` stands for the guild's role lookup.
     */
    method OnMessage(channel: int, fromBot: bool, inGuild: bool, now: int, roleExists: int -> bool)
      returns (mentions: seq<int>)
      requires Valid()
      modifies this`lastPing
      ensures Valid()
      ensures var eligible := !fromBot && inGuild && channel in channels &&
                              exists r :: r in channels[channel].roles && roleExists(r);
        && (mentions != [] <==> eligible && Due(Lookup(old(lastPing), channel), now, channels[channel].cooldown))
        && (mentions != [] ==> lastPing == old(lastPing)[channel := now])
        && (mentions == [] ==> lastPing == old(lastPing))
      ensures mentions != [] ==> channel in channels && mentions == KeptRoles(channels[channel].roles, roleExists)
    {
      mentions := [];
      if fromBot || !inGuild || channel !in channels {
        return;
      }
      var config := channels[channel];
      var live := LiveRoles(config.roles, roleExists);
      if live == [] {
        return;
      }
      var first := live[0];
      assert first in live;
      assert first in config.roles && roleExists(first);
      var last := Lookup(lastPing, channel);
      if channel in lastPing && now - lastPing[channel] < config.cooldown * Second {
        assert !Due(last, now, config.cooldown);
        return;
      }
      assert Due(last, now, config.cooldown);
      lastPing := lastPing[channel := now];
      mentions := live;
    }
  }

  /** The entry for a key, if any. */
  function Lookup(m: map<int, int>, k: int): (r: Option<int>)
    ensures r.Some? <==> k in m
    ensures r.Some? ==> r.value == m[k]
  {
    if k in m then Some(m[k]) else None
  }

  /** The ids whose role still exists, in their configured order. */
  function KeptRoles(ids: seq<int>, roleExists: int -> bool): (r: seq<int>)
    ensures |r| <= |ids|
    ensures forall x :: x in r <==> x in ids && roleExists(x)
    decreases |ids|
  {
    if ids == [] then []
    else
      var last := ids[|ids| - 1];
      assert ids == ids[..|ids| - 1] + [last];
      KeptRoles(ids[..|ids| - 1], roleExists) + (if roleExists(last) then [last] else [])
  }

  /** `[rid for rid in role_ids if guild.get_role(rid)]`. */
  method LiveRoles(ids: seq<int>, roleExists: int -> bool) returns (live: seq<int>)
    ensures live == KeptRoles(ids, roleExists)
  {
    live := [];
    var i := 0;
    while i < |ids|
      invariant 0 <= i <= |ids|
      invariant live == KeptRoles(ids[..i], roleExists)
    {
      assert ids[..i + 1][..i] == ids[..i];
      if roleExists(ids[i]) {
        live := live + [ids[i]];
      }
      i := i + 1;
    }
    assert ids[..i] == ids;
  }
}
