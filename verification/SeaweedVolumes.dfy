/** `scripts/ci/check-seaweedfs-volume-limits.py`: the volume slots of SeaweedFS, shared by all buckets. */
module SeaweedVolumes {
  import opened Text
  import opened Wrappers

  const LEGACY_VOLUMES := 8
  const WAL_MB_PER_DAY := 0.42 * 135.0
  const BASE_BACKUP_MB_PER_DAY := 40.0
  const WAL_BACKLOG_MB := 445.0 * 0.42
  const LAKE_EXTRA_VOLUMES := 2
  const FUTURE_BUCKETS := 3
  const DEFAULT_GROWTH := 7
  const CAPACITY_HEADROOM := 2.0
  const BACKUP_BUCKET := "beluga-postgres-backups"
  const LEGACY_BUCKETS := {"beluga-lake"}
  const MAX_VOLUME_SIZE_LIMIT_MB := 30000

  /** The settings of the rendered charts; the integers are absent when missing or malformed, the
      retention is absent when it cannot be parsed, and the actions are those of the S3 identities. */
  datatype Settings = Settings(volumeMax: Option<nat>, sizeMb: Option<nat>, growth: Option<nat>,
                               retentionDays: Option<nat>, actions: seq<string>)

  function Ceil(x: real): int { -(-x).Floor }

  function Max(a: int, b: int): int { if a < b then b else a }

  // ----- The buckets

  /** `action` names the bucket behind its first colon. */
  ghost predicate NamesBucket(action: string, bucket: string) {
    exists k | 0 <= k < |action| ::
      action[k] == ':' && ':' !in action[..k] && bucket == action[k + 1..]
  }

  method Buckets(actions: seq<string>) returns (buckets: set<string>)
    ensures forall b :: b in buckets <==> exists i | 0 <= i < |actions| :: NamesBucket(actions[i], b)
  {
    buckets := {};
    for n := 0 to |actions|
      invariant forall b :: b in buckets <==> exists i | 0 <= i < n :: NamesBucket(actions[i], b)
    {
      var action := actions[n];
      var k := FirstOf(action, ':');
      hide NamesBucket;
      if k < |action| {
        buckets := buckets + {action[k + 1..]};
      }
    }
  }

  // ----- The demand

  /** The slots needed when every first allocation takes `g` volumes. */
  function Demand(g: nat, others: nat, backupNew: bool, backupVolumes: int): int
    requires g >= 1
  {
    var lake := Ceil(LAKE_EXTRA_VOLUMES as real / g as real) * g;
    var total := LEGACY_VOLUMES + lake + Max(FUTURE_BUCKETS, others) * g;
    total + if backupNew then Max(g, backupVolumes) else 0
  }

  function BackupMb(days: nat): real {
    days as real * (WAL_MB_PER_DAY + BASE_BACKUP_MB_PER_DAY) + WAL_BACKLOG_MB
  }

  function BackupVolumes(days: nat, sizeMb: nat): int
    requires sizeMb >= 1
  {
    Ceil(BackupMb(days) / sizeMb as real)
  }

  predicate CapacitySuffices(volumeMax: nat, sizeMb: nat, days: nat) {
    (volumeMax * sizeMb) as real >= CAPACITY_HEADROOM * (BackupMb(days) + (LAKE_EXTRA_VOLUMES * sizeMb) as real)
  }

  datatype Report = Report(honoured: int, ignored: int, backupVolumes: int, others: nat, backupNew: bool)

  /** The settings are there and within their ranges. */
  predicate Complete(s: Settings) {
    && s.volumeMax.Some? && s.volumeMax.value >= 1
    && s.sizeMb.Some? && 1 <= s.sizeMb.value <= MAX_VOLUME_SIZE_LIMIT_MB
    && s.growth.Some? && s.growth.value >= 1
    && s.retentionDays.Some? && s.retentionDays.value >= 1
  }

  ghost predicate InSome(actions: seq<string>, bucket: string) {
    exists i | 0 <= i < |actions| :: NamesBucket(actions[i], bucket)
  }

  /** The new buckets that are not for backups. */
  ghost predicate AreOthers(actions: seq<string>, others: set<string>) {
    forall b :: b in others <==> InSome(actions, b) && b !in LEGACY_BUCKETS && b != BACKUP_BUCKET
  }

  /** `r` is the report of settings that are accepted: there is capacity for twice the data, and slots
      whatever growth between one volume and the larger of the configured and the default growth the
      master applies. */
  ghost predicate Accepts(s: Settings, r: Report) {
    && Complete(s) && CapacitySuffices(s.volumeMax.value, s.sizeMb.value, s.retentionDays.value)
    && (exists b :: InSome(s.actions, b))
    && (exists others :: AreOthers(s.actions, others) && r.others == |others|)
    && (r.backupNew <==> InSome(s.actions, BACKUP_BUCKET))
    && r.backupVolumes == BackupVolumes(s.retentionDays.value, s.sizeMb.value)
    && r.honoured == Demand(s.growth.value, r.others, r.backupNew, r.backupVolumes)
    && r.ignored == Demand(DEFAULT_GROWTH, r.others, r.backupNew, r.backupVolumes)
    && forall g | 1 <= g <= Max(s.growth.value, DEFAULT_GROWTH) ::
         Demand(g, r.others, r.backupNew, r.backupVolumes) <= s.volumeMax.value
  }

  /** The lake takes the larger of two volumes and one growth step. */
  lemma {:induction false} LakeSlots(g: nat)
    requires g >= 1
    ensures Ceil(LAKE_EXTRA_VOLUMES as real / g as real) * g == Max(2, g)
  {
    var x := 2.0 / g as real;
    if g == 1 {
      assert x == 2.0;
    } else if g == 2 {
      assert x == 1.0;
    } else {
      assert 0.0 < x < 1.0;
      assert Ceil(x) == 1;
    }
  }

  /** A larger growth step never needs fewer slots. */
  lemma {:induction false} DemandGrows(g: nat, h: nat, others: nat, backupNew: bool, backupVolumes: int)
    requires 1 <= g <= h
    ensures Demand(g, others, backupNew, backupVolumes) <= Demand(h, others, backupNew, backupVolumes)
  {
    LakeSlots(g);
    LakeSlots(h);
  }

  /** The first three other buckets are paid for in advance; every one beyond costs one growth step. */
  lemma {:induction false} OneMoreBucket(g: nat, others: nat, backupNew: bool, backupVolumes: int)
    requires g >= 1
    ensures Demand(g, others + 1, backupNew, backupVolumes) - Demand(g, others, backupNew, backupVolumes) ==
            if others < FUTURE_BUCKETS then 0 else g
  {
  }

  lemma {:induction false} Quotient(a: real, b: real, c: real)
    requires b > 0.0 && c * b >= a
    ensures a / b <= c
  {
  }

  /** Capacity for twice the data leaves the backups less than half of the slots. */
  lemma {:induction false} BackupsFit(volumeMax: nat, sizeMb: nat, days: nat)
    requires sizeMb >= 1 && CapacitySuffices(volumeMax, sizeMb, days)
    ensures 2 * BackupVolumes(days, sizeMb) <= volumeMax - 3
  {
    var size, data := sizeMb as real, BackupMb(days);
    assert (volumeMax * sizeMb) as real == volumeMax as real * size;
    assert (volumeMax as real - 4.0) * size >= 2.0 * data;
    Quotient(2.0 * data, size, volumeMax as real - 4.0);
    assert 2.0 * (data / size) == (2.0 * data) / size;
  }

  /** Settings that are accepted leave room for the legacy volumes and three future buckets. */
  lemma {:induction false} AtLeast(s: Settings, r: Report)
    requires Accepts(s, r)
    ensures s.volumeMax.value >= 36 && (r.backupNew ==> s.volumeMax.value >= 43)
    ensures 2 * r.backupVolumes <= s.volumeMax.value - 3
  {
    LakeSlots(7);
    assert Demand(7, r.others, r.backupNew, r.backupVolumes) <= s.volumeMax.value;
    BackupsFit(s.volumeMax.value, s.sizeMb.value, s.retentionDays.value);
  }

  method Validate(s: Settings) returns (report: Option<Report>)
    ensures forall r :: report == Some(r) <==> Accepts(s, r)
  {
    if !Complete(s) {
      return None;
    }
    var volumeMax, sizeMb, growth, days := s.volumeMax.value, s.sizeMb.value, s.growth.value, s.retentionDays.value;
    var backupVolumes := BackupVolumes(days, sizeMb);
    if !CapacitySuffices(volumeMax, sizeMb, days) {
      return None;
    }
    hide CapacitySuffices, BackupVolumes, NamesBucket, Demand;
    var buckets := Buckets(s.actions);
    assert forall b :: b in buckets <==> InSome(s.actions, b);
    if buckets == {} {
      return None;
    }
    var others := set b | b in buckets && b !in LEGACY_BUCKETS && b != BACKUP_BUCKET;
    assert AreOthers(s.actions, others);
    forall xs | AreOthers(s.actions, xs) ensures xs == others {
    }
    var backupNew := BACKUP_BUCKET in buckets - LEGACY_BUCKETS;
    var honoured := Demand(growth, |others|, backupNew, backupVolumes);
    var ignored := Demand(DEFAULT_GROWTH, |others|, backupNew, backupVolumes);
    AllGrowths(growth, |others|, backupNew, backupVolumes, volumeMax);
    if honoured > volumeMax || ignored > volumeMax {
      return None;
    }
    return Some(Report(honoured, ignored, backupVolumes, |others|, backupNew));
  }

  /** The two growths that are checked stand for all in between. */
  lemma {:induction false} AllGrowths(growth: nat, others: nat, backupNew: bool, backupVolumes: int, volumeMax: nat)
    requires growth >= 1
    ensures Demand(growth, others, backupNew, backupVolumes) <= volumeMax &&
            Demand(DEFAULT_GROWTH, others, backupNew, backupVolumes) <= volumeMax <==>
            forall g | 1 <= g <= Max(growth, DEFAULT_GROWTH) :: Demand(g, others, backupNew, backupVolumes) <= volumeMax
  {
    hide Demand;
    var top := Max(growth, DEFAULT_GROWTH);
    forall g | 1 <= g <= top
      ensures Demand(g, others, backupNew, backupVolumes) <= Demand(top, others, backupNew, backupVolumes)
    {
      DemandGrows(g, top, others, backupNew, backupVolumes);
    }
  }

  /** The demand in full: eight legacy volumes, two lake volumes or one growth step, a growth step for each
      other new bucket but three at least, and for a new backup bucket its volumes or one growth step. */
  lemma {:induction false} DemandIs(g: nat, others: nat, backupNew: bool, backupVolumes: int)
    requires g >= 1
    ensures var base := 8 + (if g < 2 then 2 else g) + (if others < 3 then 3 else others) * g;
            && Demand(g, others, false, backupVolumes) == base
            && Demand(g, others, true, backupVolumes) == base + if backupVolumes < g then g else backupVolumes
  {
    LakeSlots(g);
  }

  /** The backups take as many volumes as hold them: one less is not enough. */
  lemma {:induction false} BackupVolumesHold(days: nat, sizeMb: nat, most: real, less: real)
    requires sizeMb >= 1
    requires most == BackupVolumes(days, sizeMb) as real && less == most - 1.0
    ensures less * sizeMb as real < days as real * 96.7 + 186.9 <= most * sizeMb as real
  {
    var mb, size := BackupMb(days), sizeMb as real;
    assert mb == days as real * 96.7 + 186.9;
    var q := mb / size;
    Divided(mb, size);
    assert less < q <= most;
    hide BackupMb, BackupVolumes;
    Scaled(less, q, most, size);
  }

  lemma {:induction false} Divided(mb: real, size: real)
    requires size > 0.0
    ensures (mb / size) * size == mb
  {
  }

  lemma {:induction false} Scaled(a: real, q: real, b: real, size: real)
    requires size > 0.0 && a < q <= b
    ensures a * size < q * size <= b * size
  {
  }

  /** The capacity holds twice the backups and the lake. */
  lemma {:induction false} CapacityIff(volumeMax: nat, sizeMb: nat, days: nat)
    ensures CapacitySuffices(volumeMax, sizeMb, days) <==>
            (volumeMax * sizeMb) as real >= 2.0 * (days as real * 96.7 + 186.9) + 4.0 * sizeMb as real
  {
  }

  // ----- The buckets and the acceptance in plain terms

  /** An action names what stands behind its first colon. */
  lemma {:induction false} NamesIff(action: string, bucket: string)
    ensures NamesBucket(action, bucket) <==> exists verb: string :: action == verb + [':'] + bucket && ':' !in verb
  {
    if NamesBucket(action, bucket) {
      var k :| 0 <= k < |action| && action[k] == ':' && ':' !in action[..k] && bucket == action[k + 1..];
      assert action == action[..k] + [':'] + bucket;
    }
    hide NamesBucket;
    if verb: string :| action == verb + [':'] + bucket && ':' !in verb {
      NamesBehind(verb, bucket, action);
    }
  }

  lemma {:induction false} NamesBehind(verb: string, bucket: string, action: string)
    requires action == verb + [':'] + bucket && ':' !in verb
    ensures NamesBucket(action, bucket)
  {
    assert action[..|verb|] == verb && action[|verb|] == ':' && action[|verb| + 1..] == bucket;
  }

  /** The buckets that the actions name. */
  ghost predicate AreNamed(actions: seq<string>, buckets: set<string>) {
    forall b :: b in buckets <==> exists action, verb: string :: action in actions && action == verb + [':'] + b && ':' !in verb
  }

  lemma {:induction false} InSomeIff(actions: seq<string>, buckets: set<string>, b: string)
    requires AreNamed(actions, buckets)
    ensures InSome(actions, b) <==> b in buckets
  {
    hide NamesBucket;
    if InSome(actions, b) {
      var i :| 0 <= i < |actions| && NamesBucket(actions[i], b);
      NamesIff(actions[i], b);
      assert actions[i] in actions;
    }
    if b in buckets {
      var action, verb: string :| action in actions && action == verb + [':'] + b && ':' !in verb;
      NamesIff(action, b);
      var i :| 0 <= i < |actions| && actions[i] == action;
    }
  }

  /** The settings are accepted, with this report: the numbers are there and in range, twice the data fits,
      some bucket is named, the report counts the buckets besides the two known ones, and both demands
      are met. */
  lemma {:induction false} AcceptsWhen(s: Settings, r: Report, buckets: set<string>)
    requires AreNamed(s.actions, buckets)
    ensures Accepts(s, r) <==>
            && s.volumeMax.Some? && s.sizeMb.Some? && s.growth.Some? && s.retentionDays.Some?
            && 0 < s.volumeMax.value && 0 < s.sizeMb.value <= 30000 && 0 < s.growth.value && 0 < s.retentionDays.value
            && CapacitySuffices(s.volumeMax.value, s.sizeMb.value, s.retentionDays.value)
            && buckets != {} && r.others == |buckets - {"beluga-lake", "beluga-postgres-backups"}|
            && r.backupNew == ("beluga-postgres-backups" in buckets)
            && r.backupVolumes == BackupVolumes(s.retentionDays.value, s.sizeMb.value)
            && r.honoured == Demand(s.growth.value, r.others, r.backupNew, r.backupVolumes) <= s.volumeMax.value
            && r.ignored == Demand(7, r.others, r.backupNew, r.backupVolumes) <= s.volumeMax.value
  {
    hide CapacitySuffices, BackupVolumes, Demand, InSome, AreNamed;
    forall b ensures InSome(s.actions, b) <==> b in buckets {
      InSomeIff(s.actions, buckets, b);
    }
    var others := buckets - {"beluga-lake", "beluga-postgres-backups"};
    forall xs ensures AreOthers(s.actions, xs) <==> xs == others {
      OthersIff(s.actions, buckets, xs);
    }
    if s.volumeMax.Some? && s.growth.Some? && s.growth.value >= 1 {
      AllGrowths(s.growth.value, r.others, r.backupNew, r.backupVolumes, s.volumeMax.value);
    }
  }

  lemma {:induction false} OthersIff(actions: seq<string>, buckets: set<string>, xs: set<string>)
    requires forall b :: InSome(actions, b) <==> b in buckets
    ensures AreOthers(actions, xs) <==> xs == buckets - {"beluga-lake", "beluga-postgres-backups"}
  {
    hide InSome;
    assert forall b :: b in LEGACY_BUCKETS || b == BACKUP_BUCKET <==> b in {"beluga-lake", "beluga-postgres-backups"};
  }
}
