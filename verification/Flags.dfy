/** The feature-flag service as one caller at a time sees it: the table, the local cache and the
    refresh queue, updated in place. */
module Flags {
  import opened Wrappers
  import opened FlagSpec

  /** Searches both override lists for an id, the enabled list first. */
  method CheckOverride(id: string, enabled: seq<string>, disabled: seq<string>) returns (o: Override)
    ensures o == Listed(id, enabled, disabled)
  {
    if id != "" {
      for i := 0 to |enabled|
        invariant id !in enabled[..i]
      {
        if enabled[i] == id {
          return On;
        }
      }
      for i := 0 to |disabled|
        invariant id !in disabled[..i]
      {
        if disabled[i] == id {
          return Off;
        }
      }
    }
    o := Unlisted;
  }

  method EvaluateFlag(f: Flag, org: string, workspace: string) returns (on: bool)
    ensures on == Evaluate(f, org, workspace)
    ensures workspace != "" && workspace in f.enabledWorkspaces ==> on
    ensures workspace != "" && workspace in f.disabledWorkspaces && workspace !in f.enabledWorkspaces ==> !on
    ensures workspace == "" || (workspace !in f.enabledWorkspaces && workspace !in f.disabledWorkspaces) ==>
      && (org != "" && org in f.enabledOrgs ==> on)
      && (org != "" && org in f.disabledOrgs && org !in f.enabledOrgs ==> !on)
      && (org == "" || (org !in f.enabledOrgs && org !in f.disabledOrgs) ==> on == f.defaultValue)
  {
    var o := CheckOverride(workspace, f.enabledWorkspaces, f.disabledWorkspaces);
    if o.Unlisted? {
      o := CheckOverride(org, f.enabledOrgs, f.disabledOrgs);
    }
    on := if o.Unlisted? then f.defaultValue else o.On?;
  }

  /** The loop over all loaded rows. */
  method EvaluateAll(rows: map<string, Flag>, org: string, workspace: string) returns (result: map<string, bool>)
    ensures result.Keys == rows.Keys
    ensures forall k :: k in rows ==> result[k] == Evaluate(rows[k], org, workspace)
  {
    result := map[];
    var left := rows.Keys;
    while left != {}
      invariant left <= rows.Keys && result.Keys == rows.Keys - left
      invariant forall k :: k in result ==> result[k] == Evaluate(rows[k], org, workspace)
      decreases left
    {
      var k :| k in left;
      var on := EvaluateFlag(rows[k], org, workspace);
      result := result[k := on];
      left := left - {k};
    }
  }

  class FlagService {
    var table: map<string, Flag>
    var cache: map<string, Cached>
    var queue: seq<string>

    /** Rows are keyed by their own key and every cached flag is the row it was loaded from. */
    ghost predicate Valid()
      reads this
    {
      && (forall k :: k in table ==> table[k].key == k)
      && (forall k :: k in cache ==> k in table && cache[k].flag == table[k])
      && |queue| <= QUEUE_CAPACITY
    }

    constructor ()
      ensures Valid() && table == map[] && cache == map[] && queue == []
    {
      table, cache, queue := map[], map[], [];
    }

    /** What a lookup returns is the current row, cached or not; an expired entry is served and queued
        for a refresh if there is room. */
    method GetFlag(key: string, now: int, ttl: int) returns (flag: Option<Flag>)
      requires Valid()
      modifies this`cache, this`queue
      ensures Valid()
      ensures flag == if key in table then Some(table[key]) else None
      ensures cache ==
        if key in old(cache) || key !in table then old(cache) else old(cache)[key := Cached(table[key], now)]
      ensures queue == if key in old(cache) && now - old(cache)[key].loadedAt >= ttl && |old(queue)| < 100
                       then old(queue) + [key] else old(queue)
    {
      if key in cache {
        if now - cache[key].loadedAt >= ttl && |queue| < QUEUE_CAPACITY {
          queue := queue + [key];
        }
        return Some(cache[key].flag);
      }
      if key !in table {
        return None;
      }
      cache := cache[key := Cached(table[key], now)];
      flag := Some(table[key]);
    }

    method IsEnabled(key: string, org: string, workspace: string, now: int, ttl: int) returns (on: bool)
      requires Valid()
      modifies this`cache, this`queue
      ensures Valid()
      ensures on <==> key in table && Evaluate(table[key], org, workspace)
      ensures on <==>
        && key in table && var f := table[key];
        || (workspace != "" && workspace in f.enabledWorkspaces)
        || (!(workspace != "" && workspace in f.disabledWorkspaces)
            && (|| (org != "" && org in f.enabledOrgs)
                || (!(org != "" && org in f.disabledOrgs) && f.defaultValue)))
    {
      if key in table {
        EvaluateLaw(table[key], org, workspace);
      }
      var flag := GetFlag(key, now, ttl);
      if flag.None? {
        return false;
      }
      on := EvaluateFlag(flag.value, org, workspace);
    }

    method GetAll(org: string, workspace: string) returns (result: map<string, bool>)
      ensures result.Keys == table.Keys
      ensures forall k :: k in table ==> result[k] == Evaluate(table[k], org, workspace)
      ensures forall k :: k in table ==>
        (result[k] <==> var f := table[k];
          || (workspace != "" && workspace in f.enabledWorkspaces)
          || (!(workspace != "" && workspace in f.disabledWorkspaces)
              && (|| (org != "" && org in f.enabledOrgs)
                  || (!(org != "" && org in f.disabledOrgs) && f.defaultValue))))
    {
      forall k | k in table {
        EvaluateLaw(table[k], org, workspace);
      }
      result := EvaluateAll(table, org, workspace);
    }

    /** The two ways of asking agree for every key, organization and workspace: a key is enabled
        exactly when it is listed among all flags and its state there is on. */
    method AskBothWays(key: string, org: string, workspace: string, now: int, ttl: int)
      returns (on: bool, all: map<string, bool>)
      requires Valid()
      modifies this`cache, this`queue
      ensures Valid()
      ensures on <==> key in all && all[key]
    {
      on := IsEnabled(key, org, workspace, now, ttl);
      all := GetAll(org, workspace);
    }

    method SetFlag(flag: Flag)
      requires Valid()
      modifies this`table, this`cache
      ensures Valid()
      ensures table == old(table)[flag.key := flag] && cache == old(cache) - {flag.key}
    {
      table := table[flag.key := flag];
      cache := cache - {flag.key};
    }

    method InvalidateCache(key: string)
      requires Valid()
      modifies this`cache
      ensures Valid() && cache == old(cache) - {key}
    {
      cache := cache - {key};
    }

    /** The background loop over the queued keys, run until the queue is empty. */
    method BackgroundRefresh(now: int)
      requires Valid()
      modifies this`cache, this`queue
      ensures Valid() && queue == []
      ensures forall k :: k in old(queue) && k in table ==> k in cache && cache[k].loadedAt == now
      ensures forall k :: k !in old(queue) || k !in table ==>
                (k in cache <==> k in old(cache)) && (k in cache ==> cache[k] == old(cache)[k])
    {
      ghost var done: seq<string> := [];
      while queue != []
        invariant Valid() && done + queue == old(queue)
        invariant forall k :: k in done && k in table ==> k in cache && cache[k].loadedAt == now
        invariant forall k :: k !in done || k !in table ==>
                    (k in cache <==> k in old(cache)) && (k in cache ==> cache[k] == old(cache)[k])
        decreases |queue|
      {
        var key := queue[0];
        done := done + [key];
        queue := queue[1..];
        if key in table {
          cache := cache[key := Cached(table[key], now)];
        }
      }
    }
  }
}
