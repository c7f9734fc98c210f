/** Per-session activity with a cached count of active sessions. */
module SessionTracker {

  datatype Activity = Inactive | Active | Expired

  datatype UpdateResult = UpdateResult(
    inserted: bool, stateChanged: bool, activeSetChanged: bool, activeCount: nat, trackedCount: nat)

  function ActiveKeys(states: map<string, Activity>): set<string> {
    set k | k in states && states[k] == Active
  }

  /** One for an active session, zero for any other key. */
  function Weight(states: map<string, Activity>, key: string): int {
    if key in states && states[key] == Active then 1 else 0
  }

  lemma Insert(states: map<string, Activity>, key: string, state: Activity)
    requires key !in states
    ensures |ActiveKeys(states[key := state])| == |ActiveKeys(states)| + if state == Active then 1 else 0
  {
    assert ActiveKeys(states[key := state]) == ActiveKeys(states) + if state == Active then {key} else {};
  }

  lemma Change(states: map<string, Activity>, key: string, state: Activity)
    requires key in states
    ensures |ActiveKeys(states[key := state])|
         == |ActiveKeys(states)| + (if state == Active then 1 else 0) - (if states[key] == Active then 1 else 0)
    ensures states[key] == Active ==> |ActiveKeys(states)| > 0
  {
    var rest := ActiveKeys(states) - {key};
    assert ActiveKeys(states[key := state]) == rest + if state == Active then {key} else {};
    assert ActiveKeys(states) == rest + if states[key] == Active then {key} else {};
  }

  lemma Erase(states: map<string, Activity>, key: string)
    requires key in states
    ensures |ActiveKeys(states - {key})| == |ActiveKeys(states)| - if states[key] == Active then 1 else 0
    ensures states[key] == Active ==> |ActiveKeys(states)| > 0
  {
    var rest := ActiveKeys(states) - {key};
    assert ActiveKeys(states - {key}) == rest;
    assert ActiveKeys(states) == rest + if states[key] == Active then {key} else {};
  }

  class MicSessionStateTracker {
    var states: map<string, Activity>
    var activeCount: nat

    /** The cached counter is the number of active sessions. */
    ghost predicate Valid()
      reads this
    {
      activeCount == |ActiveKeys(states)|
    }

    constructor ()
      ensures Valid() && states == map[] && activeCount == 0
    {
      states := map[];
      activeCount := 0;
      new;
      assert ActiveKeys(states) == {};
    }

    method Update(key: string, state: Activity) returns (r: UpdateResult)
      requires Valid()
      modifies this
      ensures Valid() && states == old(states)[key := state]
      ensures r.inserted <==> key !in old(states)
      ensures r.stateChanged <==> states != old(states)
      ensures r.activeSetChanged <==> ActiveKeys(states) != ActiveKeys(old(states))
      ensures r.activeCount == activeCount && r.trackedCount == |states|
      ensures activeCount == old(activeCount) + (if state == Active then 1 else 0) - Weight(old(states), key)
    {
      hide ActiveKeys;
      var inserted := key !in states;
      var stateChanged, activeSetChanged := inserted, false;
      if inserted {
        Insert(states, key, state);
        KeysDiffer(states, key, state);
        states := states[key := state];
        if state == Active {
          activeCount := activeCount + 1;
          activeSetChanged := true;
        }
      } else if states[key] != state {
        Change(states, key, state);
        KeysDiffer(states, key, state);
        var wasActive, isActive := states[key] == Active, state == Active;
        states := states[key := state];
        stateChanged := true;
        if wasActive != isActive {
          activeSetChanged := true;
          if isActive {
            activeCount := activeCount + 1;
          } else if activeCount > 0 {
            activeCount := activeCount - 1;
          }
        }
      } else {
        assert states == states[key := state];
      }
      return UpdateResult(inserted, stateChanged, activeSetChanged, activeCount, |states|);
    }

    method Remove(key: string) returns (found: bool)
      requires Valid()
      modifies this
      ensures Valid() && states == old(states) - {key} && (found <==> key in old(states))
      ensures activeCount == old(activeCount) - Weight(old(states), key)
    {
      hide ActiveKeys;
      if key !in states {
        assert states - {key} == states;
        return false;
      }
      Erase(states, key);
      if states[key] == Active && activeCount > 0 {
        activeCount := activeCount - 1;
      }
      states := states - {key};
      return true;
    }

    predicate Contains(key: string)
      reads this
    {
      key in states
    }

    method Clear()
      modifies this
      ensures Valid() && states == map[] && activeCount == 0
    {
      states := map[];
      activeCount := 0;
      assert ActiveKeys(states) == {};
    }
  }

  /** Which sessions are active changes exactly when this session's activity does. */
  lemma KeysDiffer(states: map<string, Activity>, key: string, state: Activity)
    ensures ActiveKeys(states[key := state]) != ActiveKeys(states)
            <==> (state == Active) != (key in states && states[key] == Active)
  {
    var now := states[key := state];
    assert key in ActiveKeys(now) <==> state == Active;
    assert key in ActiveKeys(states) <==> key in states && states[key] == Active;
    if (state == Active) == (key in states && states[key] == Active) {
      assert ActiveKeys(now) == ActiveKeys(states);
    }
  }
}
