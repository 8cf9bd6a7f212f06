// An entity's stats with their temporary and permanent modifiers: three maps keyed by stat
// identifier, updated in place.
module StatCollections {
  import opened Wrappers
  import opened UtilityStructs
  import opened Stats
  import opened StatRepositories

  /** `GetValueOrDefault`. */
  function ValueOr<V>(m: map<int, V>, id: int, fallback: V): (v: V)
    ensures id in m ==> v == m[id]
    ensures id !in m ==> v == fallback
  {
    if id in m then m[id] else fallback
  }

  /** Adding a modifier to a map: combined with the one already there, or stored as is. */
  function Accumulate(mods: map<int, StatModifiers>, id: int, m: StatModifiers): (r: map<int, StatModifiers>)
    ensures r.Keys == mods.Keys + {id}
    ensures forall k :: k in mods && k != id ==> r[k] == mods[k]
    ensures r[id] == ValueOr(mods, id, Identity).CombineWith(m)
  {
    mods[id := if id in mods then mods[id].CombineWith(m) else m]
  }

  /** Two modifiers added one after the other are their combination added once. */
  lemma AccumulateTwice(mods: map<int, StatModifiers>, id: int, a: StatModifiers, b: StatModifiers)
    ensures Accumulate(Accumulate(mods, id, a), id, b) == Accumulate(mods, id, a.CombineWith(b))
  {
    if id in mods {
      CombineMonoid(mods[id], a, b);
    }
  }

  /** `ApplyModifiersToStat`: the base becomes the modified base, and the current value keeps
      its ratio to the base (1 when the base is not positive), clamped into the range. */
  function ApplyModifiersToStat(s: Stat, m: StatModifiers): (r: Stat)
    ensures r.baseValue == m.ApplyTo(s.baseValue)
    ensures r.minValue == s.minValue && r.maxValue == s.maxValue && r.statID == s.statID
    ensures r.statName == s.statName && r.statType == s.statType
    ensures s.minValue <= s.maxValue ==> r.InRange()
    ensures s.baseValue > 0.0 ==> r.currentValue == Clamp(m.ApplyTo(s.baseValue) * (s.currentValue / s.baseValue), s.minValue, s.maxValue)
    ensures s.baseValue <= 0.0 ==> r.currentValue == Clamp(m.ApplyTo(s.baseValue), s.minValue, s.maxValue)
  {
    var modifiedBase := m.ApplyTo(s.baseValue);
    var ratio := if s.baseValue > 0.0 then s.currentValue / s.baseValue else 1.0;
    s.SetBaseValue(modifiedBase, false).SetCurrentValue(modifiedBase * ratio)
  }

  /** The identity modifiers leave a stat in range with a positive base as it is. */
  lemma IdentityLeavesStat(s: Stat)
    requires s.InRange() && s.baseValue > 0.0
    ensures ApplyModifiersToStat(s, Identity) == s
  {
    assert s.currentValue / s.baseValue * s.baseValue == s.currentValue;
  }

  /** The all-zero modifiers turn any stat's base into 0 and its current value into 0
      clamped into the range. */
  lemma ZeroModifiersZeroStat(s: Stat)
    ensures ApplyModifiersToStat(s, Zero).baseValue == 0.0
    ensures ApplyModifiersToStat(s, Zero).currentValue == Clamp(0.0, s.minValue, s.maxValue)
  {
    var ratio := if s.baseValue > 0.0 then s.currentValue / s.baseValue else 1.0;
    assert Zero.ApplyTo(s.baseValue) == 0.0;
    assert 0.0 * ratio == 0.0;
  }

  /** Map union where `src` wins when `overwrite` and `dst` wins otherwise. */
  function Merge<V>(dst: map<int, V>, src: map<int, V>, overwrite: bool): (r: map<int, V>)
    ensures r.Keys == dst.Keys + src.Keys
    ensures forall k :: k in src && (overwrite || k !in dst) ==> r[k] == src[k]
    ensures forall k :: k in dst && (!overwrite || k !in src) ==> r[k] == dst[k]
  {
    if overwrite then dst + src else src + dst
  }

  /** The `foreach` of `CopyFrom` over one dictionary: each entry of `src` is written when
      overwriting or when its key is missing. */
  method CopyEntries<V>(dst: map<int, V>, src: map<int, V>, overwrite: bool) returns (r: map<int, V>)
    ensures r == Merge(dst, src, overwrite)
  {
    r := dst;
    var remaining := src.Keys;
    ghost var done: set<int> := {};
    while remaining != {}
      invariant remaining <= src.Keys && done == src.Keys - remaining
      invariant r.Keys == dst.Keys + done
      invariant forall k :: k in done && (overwrite || k !in dst) ==> r[k] == src[k]
      invariant forall k :: k in dst && (!overwrite || k !in done) ==> r[k] == dst[k]
    {
      NonEmptyHasElement(remaining);
      var k :| k in remaining;
      if overwrite || k !in r {
        r := r[k := src[k]];
      }
      done := done + {k};
      remaining := remaining - {k};
    }
    assert done == src.Keys;
    MapsEqual(r, Merge(dst, src, overwrite));
  }

  /** A non-empty set has an element. */
  lemma NonEmptyHasElement(s: set<int>)
    requires s != {}
    ensures exists k :: k in s
  {
    if forall k :: k !in s {
      assert false;
    }
  }

  /** Maps with the same keys and the same value at each key are equal. */
  lemma MapsEqual<V>(a: map<int, V>, b: map<int, V>)
    requires a.Keys == b.Keys && forall k :: k in a ==> a[k] == b[k]
    ensures a == b
  {
    forall k | k in a ensures a[k] == b[k] {}
    assert a.Keys == b.Keys;
  }

  datatype IssueKind = BelowMinimum | AboveMaximum | MinimumAboveMaximum | MissingName

  /** One line of `ValidateIntegrity`'s report: the stat and what is wrong with it. */
  datatype Issue = Issue(id: int, kind: IssueKind)

  /** Whether a stat has the defect `kind` names. */
  predicate HasDefect(s: Stat, kind: IssueKind) {
    match kind
    case BelowMinimum => s.currentValue < s.minValue
    case AboveMaximum => s.currentValue > s.maxValue
    case MinimumAboveMaximum => s.minValue > s.maxValue
    case MissingName => s.statName == []
  }

  /** A stat without any defect is in its range, has an ordered range and a name. */
  predicate Sound(s: Stat) {
    s.InRange() && s.minValue <= s.maxValue && s.statName != []
  }

  lemma SoundIffNoDefect(s: Stat)
    ensures Sound(s) <==> forall k :: !HasDefect(s, k)
  {
    if !Sound(s) {
      if s.currentValue < s.minValue { assert HasDefect(s, BelowMinimum); }
      else if s.currentValue > s.maxValue { assert HasDefect(s, AboveMaximum); }
      else { assert HasDefect(s, MissingName); }
    }
  }

  /** The four checks for one stat, in the order the loop body makes them. */
  function StatIssues(id: int, s: Stat): (r: seq<Issue>)
    ensures forall x :: x in r <==> x.id == id && HasDefect(s, x.kind)
  {
    (if s.currentValue < s.minValue then [Issue(id, BelowMinimum)] else [])
    + (if s.currentValue > s.maxValue then [Issue(id, AboveMaximum)] else [])
    + (if s.minValue > s.maxValue then [Issue(id, MinimumAboveMaximum)] else [])
    + (if s.statName == [] then [Issue(id, MissingName)] else [])
  }

  class StatCollection {
    var stats: map<int, Stat>
    var temporaryModifiers: map<int, StatModifiers>
    var permanentModifiers: map<int, StatModifiers>

    /** An empty collection. */
    constructor ()
      ensures stats == map[] && temporaryModifiers == map[] && permanentModifiers == map[]
    {
      stats := map[];
      temporaryModifiers := map[];
      permanentModifiers := map[];
    }

    /** A collection holding a copy of `initial` (none for a null dictionary), without modifiers. */
    constructor FromStats(initial: Option<map<int, Stat>>)
      ensures stats == initial.GetOr(map[])
      ensures temporaryModifiers == map[] && permanentModifiers == map[]
    {
      stats := initial.GetOr(map[]);
      temporaryModifiers := map[];
      permanentModifiers := map[];
    }

    predicate HasStat(id: int)
      reads this
    {
      id in stats
    }

    /** `SetStat`: always stores the stat. */
    method SetStat(id: int, s: Stat)
      modifies this
      ensures stats == old(stats)[id := s]
      ensures temporaryModifiers == old(temporaryModifiers) && permanentModifiers == old(permanentModifiers)
    {
      stats := stats[id := s];
    }

    /** `AddStat`: refused, and nothing overwritten, when the identifier is present. */
    method AddStat(id: int, s: Stat) returns (added: bool)
      modifies this
      ensures added <==> id !in old(stats)
      ensures added ==> stats == old(stats)[id := s]
      ensures !added ==> stats == old(stats)
      ensures temporaryModifiers == old(temporaryModifiers) && permanentModifiers == old(permanentModifiers)
    {
      if id in stats {
        return false;
      }
      stats := stats[id := s];
      added := true;
    }

    /** `RemoveStat`: a removed stat takes both its modifier entries with it. */
    method RemoveStat(id: int) returns (removed: bool)
      modifies this
      ensures removed <==> id in old(stats)
      ensures stats == old(stats) - {id}
      ensures removed ==> temporaryModifiers == old(temporaryModifiers) - {id}
      ensures removed ==> permanentModifiers == old(permanentModifiers) - {id}
      ensures !removed ==> temporaryModifiers == old(temporaryModifiers) && permanentModifiers == old(permanentModifiers)
    {
      removed := id in stats;
      stats := stats - {id};
      if removed {
        temporaryModifiers := temporaryModifiers - {id};
        permanentModifiers := permanentModifiers - {id};
      }
    }

    /** `ModifyStatValue`: a no-op for an absent identifier. */
    method ModifyStatValue(id: int, amount: real)
      modifies this
      ensures id in old(stats) ==> stats == old(stats)[id := old(stats)[id].ModifyStat(amount)]
      ensures id !in old(stats) ==> stats == old(stats)
      ensures temporaryModifiers == old(temporaryModifiers) && permanentModifiers == old(permanentModifiers)
    {
      if id in stats {
        stats := stats[id := stats[id].ModifyStat(amount)];
      }
    }

    /** `SetStatValue`: a no-op for an absent identifier. */
    method SetStatValue(id: int, value: real)
      modifies this
      ensures id in old(stats) ==> stats == old(stats)[id := old(stats)[id].SetCurrentValue(value)]
      ensures id !in old(stats) ==> stats == old(stats)
      ensures temporaryModifiers == old(temporaryModifiers) && permanentModifiers == old(permanentModifiers)
    {
      if id in stats {
        stats := stats[id := stats[id].SetCurrentValue(value)];
      }
    }

    /** `RestoreStatToMax`: a no-op for an absent identifier. */
    method RestoreStatToMax(id: int)
      modifies this
      ensures id in old(stats) ==> stats == old(stats)[id := old(stats)[id].RestoreToMax()]
      ensures id !in old(stats) ==> stats == old(stats)
      ensures temporaryModifiers == old(temporaryModifiers) && permanentModifiers == old(permanentModifiers)
    {
      if id in stats {
        stats := stats[id := stats[id].RestoreToMax()];
      }
    }

    /** `RestoreAllStatsToMax`: every stat, and only those, restored. */
    method RestoreAllStatsToMax()
      modifies this
      ensures stats == map k | k in old(stats) :: old(stats)[k].RestoreToMax()
      ensures forall k :: k in stats ==> stats[k].IsAtMax()
      ensures temporaryModifiers == old(temporaryModifiers) && permanentModifiers == old(permanentModifiers)
    {
      ghost var target := map k | k in stats :: stats[k].RestoreToMax();
      var remaining := stats.Keys;
      while remaining != {}
        invariant remaining <= stats.Keys == old(stats).Keys
        invariant forall k :: k in remaining ==> stats[k] == old(stats)[k]
        invariant forall k :: k in stats && k !in remaining ==> stats[k] == old(stats)[k].RestoreToMax()
        invariant temporaryModifiers == old(temporaryModifiers) && permanentModifiers == old(permanentModifiers)
      {
        NonEmptyHasElement(remaining);
        var k :| k in remaining;
        RestoreStatToMax(k);
        remaining := remaining - {k};
      }
      MapsEqual(stats, target);
    }

    /** `AddTemporaryModifier`: accumulates into the temporary map. */
    method AddTemporaryModifier(id: int, m: StatModifiers)
      modifies this
      ensures temporaryModifiers == Accumulate(old(temporaryModifiers), id, m)
      ensures stats == old(stats) && permanentModifiers == old(permanentModifiers)
    {
      if id in temporaryModifiers {
        temporaryModifiers := temporaryModifiers[id := temporaryModifiers[id].CombineWith(m)];
      } else {
        temporaryModifiers := temporaryModifiers[id := m];
      }
    }

    /** `AddPermanentModifier`: accumulates into the permanent map. */
    method AddPermanentModifier(id: int, m: StatModifiers)
      modifies this
      ensures permanentModifiers == Accumulate(old(permanentModifiers), id, m)
      ensures stats == old(stats) && temporaryModifiers == old(temporaryModifiers)
    {
      if id in permanentModifiers {
        permanentModifiers := permanentModifiers[id := permanentModifiers[id].CombineWith(m)];
      } else {
        permanentModifiers := permanentModifiers[id := m];
      }
    }

    /** `ClearTemporaryModifiers`. */
    method ClearTemporaryModifiers(id: int)
      modifies this
      ensures temporaryModifiers == old(temporaryModifiers) - {id}
      ensures stats == old(stats) && permanentModifiers == old(permanentModifiers)
    {
      temporaryModifiers := temporaryModifiers - {id};
    }

    /** `ClearAllTemporaryModifiers`: only the temporary map is emptied. */
    method ClearAllTemporaryModifiers()
      modifies this
      ensures temporaryModifiers == map[]
      ensures stats == old(stats) && permanentModifiers == old(permanentModifiers)
    {
      temporaryModifiers := map[];
    }

    /** `GetCombinedModifiers` as written: a missing entry defaults to `new StatModifiers()`,
        whose multiplier is 0. */
    function CombinedModifiersAsWritten(id: int): (m: StatModifiers)
      reads this
      ensures id !in temporaryModifiers && id !in permanentModifiers ==> m == Zero
    {
      ValueOr(temporaryModifiers, id, Zero).CombineWith(ValueOr(permanentModifiers, id, Zero))
    }

    /** `GetCombinedModifiers` with the defaults the struct's constructor gives: no bonus and
        multiplier 1, so a stat without modifiers combines to the identity. */
    function CombinedModifiers(id: int): (m: StatModifiers)
      reads this
      ensures id !in temporaryModifiers && id !in permanentModifiers ==> m == Identity
      ensures id in temporaryModifiers && id !in permanentModifiers ==> m == temporaryModifiers[id]
      ensures id !in temporaryModifiers && id in permanentModifiers ==> m == permanentModifiers[id]
    {
      ValueOr(temporaryModifiers, id, Identity).CombineWith(ValueOr(permanentModifiers, id, Identity))
    }

    /** A stored stat with its modifiers applied, as `GetStat` computes it in the code as
        written. */
    function ModifiedStatAsWritten(id: int): (s: Stat)
      reads this
      requires id in stats
      ensures s == ApplyModifiersToStat(stats[id], CombinedModifiersAsWritten(id))
    {
      ApplyModifiersToStat(stats[id], CombinedModifiersAsWritten(id))
    }

    /** As written, a stored stat without modifiers is reported with base 0 and its current
        value clamped from 0, whatever was stored. */
    lemma UnmodifiedStatReportedAsZero(id: int)
      requires id in stats && id !in temporaryModifiers && id !in permanentModifiers
      ensures ModifiedStatAsWritten(id).baseValue == 0.0
      ensures ModifiedStatAsWritten(id).currentValue == Clamp(0.0, stats[id].minValue, stats[id].maxValue)
    {
      assert CombinedModifiersAsWritten(id) == Zero;
      ZeroModifiersZeroStat(stats[id]);
    }

    /** `GetStat` with identity defaults: a stored stat with its modifiers applied, otherwise
        the repository's template (which may initialise the repository). */
    method GetStat(id: int, repository: StatRepository) returns (s: Stat)
      modifies repository
      ensures id in stats ==> s == ApplyModifiersToStat(stats[id], CombinedModifiers(id))
      ensures id in stats ==> repository.State() == old(repository.State())
      ensures id !in stats && old(repository.isInitialized) ==> repository.State() == old(repository.State())
      ensures id !in stats && !old(repository.isInitialized) ==> repository.State() == DefaultRegistry()
      ensures id !in stats ==> s == Lookup(repository.State(), id)
    {
      if id in stats {
        return ApplyModifiersToStat(stats[id], CombinedModifiers(id));
      }
      s := repository.GetStat(id);
    }

    /** With the identity defaults, a stored stat in range with a positive base and no
        modifiers is reported as stored. */
    lemma UnmodifiedStatReportedAsStored(id: int)
      requires id in stats && id !in temporaryModifiers && id !in permanentModifiers
      requires stats[id].InRange() && stats[id].baseValue > 0.0
      ensures ApplyModifiersToStat(stats[id], CombinedModifiers(id)) == stats[id]
    {
      IdentityLeavesStat(stats[id]);
    }

    /** `GetStatBaseValue`: the stored base before modifiers, or 0. */
    function GetStatBaseValue(id: int): (v: real)
      reads this
      ensures id in stats ==> v == stats[id].baseValue
      ensures id !in stats ==> v == 0.0
    {
      if id in stats then stats[id].baseValue else 0.0
    }

    /** `CopyFrom`: nothing for a null source; otherwise missing stats are added, existing ones
        overwritten only when `overwrite`, and the modifiers copied only when `overwrite`. */
    method CopyFrom(other: StatCollection?, overwrite: bool)
      modifies this
      ensures other == null ==> stats == old(stats)
      ensures other != null ==> stats == Merge(old(stats), old(other.stats), overwrite)
      ensures other != null && overwrite ==>
        temporaryModifiers == old(temporaryModifiers) + old(other.temporaryModifiers)
        && permanentModifiers == old(permanentModifiers) + old(other.permanentModifiers)
      ensures other == null || !overwrite ==>
        temporaryModifiers == old(temporaryModifiers) && permanentModifiers == old(permanentModifiers)
    {
      if other == null {
        return;
      }
      var srcStats, srcTemp, srcPerm := other.stats, other.temporaryModifiers, other.permanentModifiers;
      stats := CopyEntries(stats, srcStats, overwrite);
      if overwrite {
        temporaryModifiers := CopyEntries(temporaryModifiers, srcTemp, true);
        permanentModifiers := CopyEntries(permanentModifiers, srcPerm, true);
      }
    }

    /** `ValidateIntegrity`: one issue for each defect of each stat, so the report is empty
        exactly when every stat is sound. */
    method ValidateIntegrity() returns (issues: seq<Issue>)
      ensures forall id, k :: Issue(id, k) in issues <==> id in stats && HasDefect(stats[id], k)
      ensures issues == [] <==> forall id :: id in stats ==> Sound(stats[id])
    {
      issues := [];
      var remaining := stats.Keys;
      while remaining != {}
        invariant remaining <= stats.Keys
        invariant forall id, k :: Issue(id, k) in issues <==> id in stats && id !in remaining && HasDefect(stats[id], k)
      {
        NonEmptyHasElement(remaining);
        var id :| id in remaining;
        issues := issues + StatIssues(id, stats[id]);
        remaining := remaining - {id};
      }
      if issues == [] {
        forall id | id in stats ensures Sound(stats[id]) {
          SoundIffNoDefect(stats[id]);
          forall k ensures !HasDefect(stats[id], k) {
            assert Issue(id, k) !in issues;
          }
        }
      } else {
        var x := issues[0];
        assert Issue(x.id, x.kind) in issues;
        SoundIffNoDefect(stats[x.id]);
      }
    }
  }
}
