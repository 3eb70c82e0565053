/**
 Configuration that can change at run time: an update is merged, validated, saved and only then
 published; a reset removes the saved snapshot; a restart reads it back.
 */
module HotConfiguration {
  import opened Wrappers
  import opened Encoding

  /** A 64-bit float, as far as the range check and the saved text tell values apart. */
  datatype Float = Num(value: real) | PosInf | NegInf | NaN

  datatype RateLimit = RateLimit(requestsPerSecond: u32, burst: u32, perIp: u32)

  // `other` stands for the fields of a section that are neither updated nor validated.

  datatype Ebpf = Ebpf(
    fdSoft: u32, fdHard: u32, memLow: u64, memCritical: u64, diskSlowNs: u64, tcpLimit: u32, syscallRate: u64,
    other: Text)

  datatype Gc = Gc(keepVersions: u64, intervalSecs: u64, diskWarning: Float, other: Text)

  datatype Health = Health(
    checkIntervalSecs: u64, idleTimeoutSecs: u64, maxInstances: u64, fuelQuota: u64, memoryPages: u32,
    minDiskFreeBytes: u64, minDiskFreeInodes: u64, maxMemoryBytes: u64, other: Text)

  datatype Logging = Logging(level: Text, other: Text)

  datatype HotConfig = HotConfig(rateLimit: RateLimit, ebpf: Ebpf, gc: Gc, health: Health, logging: Logging)

  datatype Update = Update(
    requestsPerSecond: Option<u32>, burst: Option<u32>, perIp: Option<u32>,
    fdSoft: Option<u32>, fdHard: Option<u32>, memLow: Option<u64>, memCritical: Option<u64>,
    diskSlowNs: Option<u64>, tcpLimit: Option<u32>, syscallRate: Option<u64>,
    gcIntervalSecs: Option<u64>, diskWarning: Option<Float>,
    checkIntervalSecs: Option<u64>, idleTimeoutSecs: Option<u64>, level: Option<Text>)

  // ----- Merging -----

  function Or<T>(option: Option<T>, default: T): T {
    if option.Some? then option.value else default
  }

  function MergedRateLimit(base: RateLimit, u: Update): RateLimit {
    RateLimit(Or(u.requestsPerSecond, base.requestsPerSecond), Or(u.burst, base.burst), Or(u.perIp, base.perIp))
  }

  function MergedEbpf(base: Ebpf, u: Update): Ebpf {
    Ebpf(Or(u.fdSoft, base.fdSoft), Or(u.fdHard, base.fdHard), Or(u.memLow, base.memLow),
         Or(u.memCritical, base.memCritical), Or(u.diskSlowNs, base.diskSlowNs),
         Or(u.tcpLimit, base.tcpLimit), Or(u.syscallRate, base.syscallRate), base.other)
  }

  /** Every field that the update sets takes its value; every other field keeps the base's. */
  function Merged(base: HotConfig, u: Update): HotConfig {
    HotConfig(
      MergedRateLimit(base.rateLimit, u),
      MergedEbpf(base.ebpf, u),
      base.gc.(intervalSecs := Or(u.gcIntervalSecs, base.gc.intervalSecs),
               diskWarning := Or(u.diskWarning, base.gc.diskWarning)),
      base.health.(checkIntervalSecs := Or(u.checkIntervalSecs, base.health.checkIntervalSecs),
                   idleTimeoutSecs := Or(u.idleTimeoutSecs, base.health.idleTimeoutSecs)),
      base.logging.(level := Or(u.level, base.logging.level)))
  }

  method MergeEbpf(base: Ebpf, u: Update) returns (e: Ebpf)
    ensures e == MergedEbpf(base, u)
  {
    e := base;
    if u.fdSoft.Some? { e := e.(fdSoft := u.fdSoft.value); }
    if u.fdHard.Some? { e := e.(fdHard := u.fdHard.value); }
    if u.memLow.Some? { e := e.(memLow := u.memLow.value); }
    if u.memCritical.Some? { e := e.(memCritical := u.memCritical.value); }
    if u.diskSlowNs.Some? { e := e.(diskSlowNs := u.diskSlowNs.value); }
    if u.tcpLimit.Some? { e := e.(tcpLimit := u.tcpLimit.value); }
    if u.syscallRate.Some? { e := e.(syscallRate := u.syscallRate.value); }
  }

  method MergeRateLimit(base: RateLimit, u: Update) returns (r: RateLimit)
    ensures r == MergedRateLimit(base, u)
  {
    r := base;
    if u.requestsPerSecond.Some? { r := r.(requestsPerSecond := u.requestsPerSecond.value); }
    if u.burst.Some? { r := r.(burst := u.burst.value); }
    if u.perIp.Some? { r := r.(perIp := u.perIp.value); }
  }

  method Merge(base: HotConfig, u: Update) returns (c: HotConfig)
    ensures c == Merged(base, u)
  {
    var r := MergeRateLimit(base.rateLimit, u);
    var e := MergeEbpf(base.ebpf, u);
    var g, h, l := base.gc, base.health, base.logging;
    if u.gcIntervalSecs.Some? { g := g.(intervalSecs := u.gcIntervalSecs.value); }
    if u.diskWarning.Some? { g := g.(diskWarning := u.diskWarning.value); }
    if u.checkIntervalSecs.Some? { h := h.(checkIntervalSecs := u.checkIntervalSecs.value); }
    if u.idleTimeoutSecs.Some? { h := h.(idleTimeoutSecs := u.idleTimeoutSecs.value); }
    if u.level.Some? { l := l.(level := u.level.value); }
    c := HotConfig(r, e, g, h, l);
  }

  function Later<T>(first: Option<T>, second: Option<T>): Option<T> {
    if second.Some? then second else first
  }

  /** Both updates as one; the later wins where both set a field. */
  function Compose(u: Update, v: Update): Update {
    Update(
      Later(u.requestsPerSecond, v.requestsPerSecond), Later(u.burst, v.burst), Later(u.perIp, v.perIp),
      Later(u.fdSoft, v.fdSoft), Later(u.fdHard, v.fdHard), Later(u.memLow, v.memLow),
      Later(u.memCritical, v.memCritical), Later(u.diskSlowNs, v.diskSlowNs), Later(u.tcpLimit, v.tcpLimit),
      Later(u.syscallRate, v.syscallRate),
      Later(u.gcIntervalSecs, v.gcIntervalSecs), Later(u.diskWarning, v.diskWarning),
      Later(u.checkIntervalSecs, v.checkIntervalSecs), Later(u.idleTimeoutSecs, v.idleTimeoutSecs),
      Later(u.level, v.level))
  }

  function NoChange(): Update {
    Update(None, None, None, None, None, None, None, None, None, None, None, None, None, None, None)
  }

  /** A sequence of updates as one. */
  function Combined(updates: seq<Update>): Update {
    if updates == [] then NoChange() else Compose(Combined(updates[..|updates| - 1]), updates[|updates| - 1])
  }

  lemma MergeTwice(base: HotConfig, u: Update, v: Update)
    ensures Merged(Merged(base, u), v) == Merged(base, Compose(u, v))
  {
  }

  lemma MergeNothing(base: HotConfig)
    ensures Merged(base, NoChange()) == base
  {
  }

  // ----- Field by field -----

  /** The fields that an update can set. */
  datatype Field =
    | RequestsPerSecondField | BurstField | PerIpField | FdSoftField | FdHardField | MemLowField | MemCriticalField
    | DiskSlowNsField | TcpLimitField | SyscallRateField | GcIntervalField | DiskWarningField
    | CheckIntervalField | IdleTimeoutField | LevelField

  datatype Value = Number(n: nat) | Ratio(f: Float) | Words(t: Text)

  function Get(c: HotConfig, field: Field): Value {
    match field
    case RequestsPerSecondField => Number(c.rateLimit.requestsPerSecond)
    case BurstField => Number(c.rateLimit.burst)
    case PerIpField => Number(c.rateLimit.perIp)
    case FdSoftField => Number(c.ebpf.fdSoft)
    case FdHardField => Number(c.ebpf.fdHard)
    case MemLowField => Number(c.ebpf.memLow)
    case MemCriticalField => Number(c.ebpf.memCritical)
    case DiskSlowNsField => Number(c.ebpf.diskSlowNs)
    case TcpLimitField => Number(c.ebpf.tcpLimit)
    case SyscallRateField => Number(c.ebpf.syscallRate)
    case GcIntervalField => Number(c.gc.intervalSecs)
    case DiskWarningField => Ratio(c.gc.diskWarning)
    case CheckIntervalField => Number(c.health.checkIntervalSecs)
    case IdleTimeoutField => Number(c.health.idleTimeoutSecs)
    case LevelField => Words(c.logging.level)
  }

  /** What the update asks a field to become, if anything. */
  function Asked(u: Update, field: Field): Option<Value> {
    match field
    case RequestsPerSecondField => if u.requestsPerSecond.Some? then Some(Number(u.requestsPerSecond.value)) else None
    case BurstField => if u.burst.Some? then Some(Number(u.burst.value)) else None
    case PerIpField => if u.perIp.Some? then Some(Number(u.perIp.value)) else None
    case FdSoftField => if u.fdSoft.Some? then Some(Number(u.fdSoft.value)) else None
    case FdHardField => if u.fdHard.Some? then Some(Number(u.fdHard.value)) else None
    case MemLowField => if u.memLow.Some? then Some(Number(u.memLow.value)) else None
    case MemCriticalField => if u.memCritical.Some? then Some(Number(u.memCritical.value)) else None
    case DiskSlowNsField => if u.diskSlowNs.Some? then Some(Number(u.diskSlowNs.value)) else None
    case TcpLimitField => if u.tcpLimit.Some? then Some(Number(u.tcpLimit.value)) else None
    case SyscallRateField => if u.syscallRate.Some? then Some(Number(u.syscallRate.value)) else None
    case GcIntervalField => if u.gcIntervalSecs.Some? then Some(Number(u.gcIntervalSecs.value)) else None
    case DiskWarningField => if u.diskWarning.Some? then Some(Ratio(u.diskWarning.value)) else None
    case CheckIntervalField => if u.checkIntervalSecs.Some? then Some(Number(u.checkIntervalSecs.value)) else None
    case IdleTimeoutField => if u.idleTimeoutSecs.Some? then Some(Number(u.idleTimeoutSecs.value)) else None
    case LevelField => if u.level.Some? then Some(Words(u.level.value)) else None
  }

  /** The two configurations agree on all that no update can set. */
  ghost predicate SameRest(c: HotConfig, b: HotConfig) {
    && c.ebpf.other == b.ebpf.other && c.gc.other == b.gc.other && c.health.other == b.health.other
    && c.logging.other == b.logging.other && c.gc.keepVersions == b.gc.keepVersions
    && c.health.maxInstances == b.health.maxInstances && c.health.fuelQuota == b.health.fuelQuota
    && c.health.memoryPages == b.health.memoryPages && c.health.minDiskFreeBytes == b.health.minDiskFreeBytes
    && c.health.minDiskFreeInodes == b.health.minDiskFreeInodes && c.health.maxMemoryBytes == b.health.maxMemoryBytes
  }

  /** Each field has the value asked for, or else the base's; nothing else has changed. */
  ghost predicate Updated(c: HotConfig, base: HotConfig, u: Update) {
    SameRest(c, base) && forall field :: Get(c, field) == Or(Asked(u, field), Get(base, field))
  }

  lemma MergedField(base: HotConfig, u: Update, field: Field)
    ensures Get(Merged(base, u), field) == Or(Asked(u, field), Get(base, field))
  {
  }

  lemma SameRateLimit(c: HotConfig, b: HotConfig)
    requires forall field :: Get(c, field) == Get(b, field)
    ensures c.rateLimit == b.rateLimit
  {
    assert Get(c, RequestsPerSecondField) == Get(b, RequestsPerSecondField);
    assert Get(c, BurstField) == Get(b, BurstField) && Get(c, PerIpField) == Get(b, PerIpField);
  }

  lemma SameEbpf(c: HotConfig, b: HotConfig)
    requires SameRest(c, b) && forall field :: Get(c, field) == Get(b, field)
    ensures c.ebpf == b.ebpf
  {
    assert Get(c, FdSoftField) == Get(b, FdSoftField) && Get(c, FdHardField) == Get(b, FdHardField);
    assert Get(c, MemLowField) == Get(b, MemLowField) && Get(c, MemCriticalField) == Get(b, MemCriticalField);
    assert Get(c, DiskSlowNsField) == Get(b, DiskSlowNsField) && Get(c, TcpLimitField) == Get(b, TcpLimitField);
    assert Get(c, SyscallRateField) == Get(b, SyscallRateField);
  }

  /** Configurations are equal if every field and the rest are. */
  lemma SameFields(c: HotConfig, b: HotConfig)
    requires SameRest(c, b) && forall field :: Get(c, field) == Get(b, field)
    ensures c == b
  {
    SameRateLimit(c, b);
    SameEbpf(c, b);
    assert Get(c, GcIntervalField) == Get(b, GcIntervalField) && Get(c, DiskWarningField) == Get(b, DiskWarningField);
    assert Get(c, CheckIntervalField) == Get(b, CheckIntervalField);
    assert Get(c, IdleTimeoutField) == Get(b, IdleTimeoutField) && Get(c, LevelField) == Get(b, LevelField);
  }

  /** The merge is the one configuration in which each of the fifteen fields is as asked and nothing else changed. */
  lemma MergeIsUpdate(base: HotConfig, u: Update, c: HotConfig)
    ensures c == Merged(base, u) <==> Updated(c, base, u)
  {
    forall field ensures Get(Merged(base, u), field) == Or(Asked(u, field), Get(base, field)) {
      MergedField(base, u, field);
    }
    if Updated(c, base, u) { SameFields(c, Merged(base, u)); }
  }

  lemma ComposeField(u: Update, v: Update, field: Field)
    ensures Asked(Compose(u, v), field) == Later(Asked(u, field), Asked(v, field))
  {
  }

  /** The last value that a sequence of updates asks a field to have. */
  function LastAsked(updates: seq<Update>, field: Field): Option<Value> {
    if updates == [] then None
    else
      var last := Asked(updates[|updates| - 1], field);
      if last.Some? then last else LastAsked(updates[..|updates| - 1], field)
  }

  lemma {:induction false} CombinedField(updates: seq<Update>, field: Field)
    ensures Asked(Combined(updates), field) == LastAsked(updates, field)
  {
    if updates != [] {
      CombinedField(updates[..|updates| - 1], field);
      ComposeField(Combined(updates[..|updates| - 1]), updates[|updates| - 1], field);
    }
  }

  // ----- Validation -----

  datatype Rule =
    | LogLevel | DiskWarningRange | KeepVersions | FdOrder | MemoryOrder | CheckInterval | FuelQuota
    | MemoryPages | MaxInstances | DiskFreeBytes | DiskFreeInodes | MaxMemory | PoolFits | RequestRate

  predicate KnownLevel(level: Text) {
    level in {Ascii("trace"), Ascii("debug"), Ascii("info"), Ascii("warn"), Ascii("error")}
  }

  /** What each rule demands; the memory pool is compared as a mathematical product. */
  predicate Broken(rule: Rule, c: HotConfig) {
    match rule
    case LogLevel => !KnownLevel(c.logging.level)
    case DiskWarningRange => OutOfRange(c.gc.diskWarning)
    case KeepVersions => c.gc.keepVersions == 0
    case FdOrder => c.ebpf.fdSoft >= c.ebpf.fdHard
    case MemoryOrder => c.ebpf.memLow <= c.ebpf.memCritical
    case CheckInterval => c.health.checkIntervalSecs == 0
    case FuelQuota => c.health.fuelQuota == 0
    case MemoryPages => c.health.memoryPages == 0
    case MaxInstances => c.health.maxInstances == 0
    case DiskFreeBytes => c.health.minDiskFreeBytes == 0
    case DiskFreeInodes => c.health.minDiskFreeInodes == 0
    case MaxMemory => c.health.maxMemoryBytes == 0
    case PoolFits => (c.health.memoryPages as int) * 65536 * (c.health.maxInstances as int) > c.health.maxMemoryBytes
    case RequestRate => c.rateLimit.requestsPerSecond == 0
  }

  /** Comparisons with NaN are false, so NaN is not out of range. */
  predicate OutOfRange(f: Float) {
    match f
    case Num(v) => v <= 0.0 || v > 1.0
    case PosInf => true
    case NegInf => true
    case NaN => false
  }

  ghost predicate Valid(c: HotConfig) {
    forall rule :: !Broken(rule, c)
  }

  predicate NamedLevel(level: Text) {
    || level == Ascii("trace") || level == Ascii("debug") || level == Ascii("info") || level == Ascii("warn")
    || level == Ascii("error")
  }

  /** The limits of a configuration, written out; a ratio that is no number is let through. */
  ghost predicate WithinLimits(c: HotConfig) {
    && NamedLevel(c.logging.level)
    && (c.gc.diskWarning == NaN || (c.gc.diskWarning.Num? && 0.0 < c.gc.diskWarning.value <= 1.0))
    && c.gc.keepVersions >= 1 && c.ebpf.fdSoft < c.ebpf.fdHard && c.ebpf.memCritical < c.ebpf.memLow
    && c.health.checkIntervalSecs >= 1 && c.health.fuelQuota >= 1 && c.health.memoryPages >= 1
    && c.health.maxInstances >= 1 && c.health.minDiskFreeBytes >= 1 && c.health.minDiskFreeInodes >= 1
    && c.health.maxMemoryBytes >= 1
    && (c.health.memoryPages as int) * 65536 * (c.health.maxInstances as int) <= c.health.maxMemoryBytes
    && c.rateLimit.requestsPerSecond >= 1
  }

  lemma KnownIsNamed(level: Text)
    ensures KnownLevel(level) <==> NamedLevel(level)
  {
  }

  /** A configuration is valid exactly within these limits. */
  lemma ValidIff(c: HotConfig)
    ensures Valid(c) <==> WithinLimits(c)
  {
    if Valid(c) { ValidIsWithin(c); }
    if WithinLimits(c) {
      forall rule ensures !Broken(rule, c) { WithinIsUnbroken(c, rule); }
    }
  }

  lemma WithinIsUnbroken(c: HotConfig, rule: Rule)
    requires WithinLimits(c)
    ensures !Broken(rule, c)
  {
    KnownIsNamed(c.logging.level);
  }

  lemma ValidIsWithin(c: HotConfig)
    requires Valid(c)
    ensures WithinLimits(c)
  {
    KnownIsNamed(c.logging.level);
    AllRules(c);
  }

  lemma AllRules(c: HotConfig)
    requires Valid(c)
    ensures !Broken(LogLevel, c) && !Broken(DiskWarningRange, c) && !Broken(KeepVersions, c) && !Broken(FdOrder, c)
    ensures !Broken(MemoryOrder, c) && !Broken(CheckInterval, c) && !Broken(FuelQuota, c) && !Broken(MemoryPages, c)
    ensures !Broken(MaxInstances, c) && !Broken(DiskFreeBytes, c) && !Broken(DiskFreeInodes, c)
    ensures !Broken(MaxMemory, c) && !Broken(PoolFits, c) && !Broken(RequestRate, c)
  {
  }

  function CheckedMul(a: nat, b: nat): (r: Option<u64>) {
    if a * b <= MAX_U64 then Some(a * b) else None
  }

  method CheckPool(h: Health) returns (fits: bool)
    ensures fits <==> (h.memoryPages as int) * 65536 * (h.maxInstances as int) <= h.maxMemoryBytes
  {
    var bytes := CheckedMul(h.memoryPages, 65536);
    assert bytes.Some?;
    var pool := CheckedMul(bytes.value, h.maxInstances);
    fits := pool.Some? && pool.value <= h.maxMemoryBytes;
  }

  function If(rule: Rule, c: HotConfig): seq<Rule> {
    if Broken(rule, c) then [rule] else []
  }

  function BrokenInstances(c: HotConfig): seq<Rule> {
    If(CheckInterval, c) + If(FuelQuota, c) + If(MemoryPages, c) + If(MaxInstances, c)
  }

  function BrokenCapacity(c: HotConfig): seq<Rule> {
    If(DiskFreeBytes, c) + If(DiskFreeInodes, c) + If(MaxMemory, c) + If(PoolFits, c)
  }

  function BrokenLimits(c: HotConfig): seq<Rule> {
    If(DiskWarningRange, c) + If(KeepVersions, c) + If(FdOrder, c) + If(MemoryOrder, c)
  }

  /** The broken rules in the order of the report. */
  function BrokenRules(c: HotConfig): seq<Rule> {
    If(LogLevel, c) + BrokenLimits(c) + BrokenInstances(c) + BrokenCapacity(c) + If(RequestRate, c)
  }

  lemma FourRules(r0: Rule, r1: Rule, r2: Rule, r3: Rule, c: HotConfig, rule: Rule)
    ensures rule in If(r0, c) + If(r1, c) + If(r2, c) + If(r3, c) <==> rule in {r0, r1, r2, r3} && Broken(rule, c)
  {
  }

  lemma BrokenRulesAre(c: HotConfig, rule: Rule)
    ensures rule in BrokenRules(c) <==> Broken(rule, c)
  {
    FourRules(DiskWarningRange, KeepVersions, FdOrder, MemoryOrder, c, rule);
    FourRules(CheckInterval, FuelQuota, MemoryPages, MaxInstances, c, rule);
    FourRules(DiskFreeBytes, DiskFreeInodes, MaxMemory, PoolFits, c, rule);
  }

  /** Where a rule stands in the report. */
  function Place(rule: Rule): nat {
    match rule
    case LogLevel => 0
    case DiskWarningRange => 1
    case KeepVersions => 2
    case FdOrder => 3
    case MemoryOrder => 4
    case CheckInterval => 5
    case FuelQuota => 6
    case MemoryPages => 7
    case MaxInstances => 8
    case DiskFreeBytes => 9
    case DiskFreeInodes => 10
    case MaxMemory => 11
    case PoolFits => 12
    case RequestRate => 13
  }

  /** The rules stand in order, at places from `low` up to but not including `high`. */
  ghost predicate InPlaces(rules: seq<Rule>, low: nat, high: nat) {
    && (forall i :: 0 <= i < |rules| ==> low <= Place(rules[i]) < high)
    && (forall i, j :: 0 <= i < j < |rules| ==> Place(rules[i]) < Place(rules[j]))
  }

  lemma PlacesJoin(a: seq<Rule>, b: seq<Rule>, low: nat, mid: nat, high: nat)
    requires InPlaces(a, low, mid) && InPlaces(b, mid, high) && low <= mid <= high
    ensures InPlaces(a + b, low, high)
  {
  }

  lemma FourPlaces(r0: Rule, r1: Rule, r2: Rule, r3: Rule, c: HotConfig)
    requires Place(r1) == Place(r0) + 1 && Place(r2) == Place(r0) + 2 && Place(r3) == Place(r0) + 3
    ensures InPlaces(If(r0, c) + If(r1, c) + If(r2, c) + If(r3, c), Place(r0), Place(r0) + 4)
  {
    OnePlace(r0, c);
    OnePlace(r1, c);
    OnePlace(r2, c);
    OnePlace(r3, c);
    FourGroups(If(r0, c), If(r1, c), If(r2, c), If(r3, c), Place(r0));
  }

  lemma OnePlace(rule: Rule, c: HotConfig)
    ensures InPlaces(If(rule, c), Place(rule), Place(rule) + 1)
  {
  }

  lemma FourGroups(r0: seq<Rule>, r1: seq<Rule>, r2: seq<Rule>, r3: seq<Rule>, k: nat)
    requires InPlaces(r0, k, k + 1) && InPlaces(r1, k + 1, k + 2)
    requires InPlaces(r2, k + 2, k + 3) && InPlaces(r3, k + 3, k + 4)
    ensures InPlaces(r0 + r1 + r2 + r3, k, k + 4)
  {
    PlacesJoin(r0, r1, k, k + 1, k + 2);
    PlacesJoin(r0 + r1, r2, k, k + 2, k + 3);
    PlacesJoin(r0 + r1 + r2, r3, k, k + 3, k + 4);
  }

  /** Broken rules are reported in the order of the checks, each once. */
  lemma RulesInOrder(c: HotConfig)
    ensures InPlaces(BrokenRules(c), 0, 14)
  {
    LimitsInOrder(c);
    InstancesInOrder(c);
    CapacityInOrder(c);
    FivePlaces(If(LogLevel, c), BrokenLimits(c), BrokenInstances(c), BrokenCapacity(c), If(RequestRate, c));
  }

  lemma LimitsInOrder(c: HotConfig)
    ensures InPlaces(BrokenLimits(c), 1, 5)
  {
    FourPlaces(DiskWarningRange, KeepVersions, FdOrder, MemoryOrder, c);
  }

  lemma InstancesInOrder(c: HotConfig)
    ensures InPlaces(BrokenInstances(c), 5, 9)
  {
    FourPlaces(CheckInterval, FuelQuota, MemoryPages, MaxInstances, c);
  }

  lemma CapacityInOrder(c: HotConfig)
    ensures InPlaces(BrokenCapacity(c), 9, 13)
  {
    FourPlaces(DiskFreeBytes, DiskFreeInodes, MaxMemory, PoolFits, c);
  }

  lemma FivePlaces(r0: seq<Rule>, r1: seq<Rule>, r2: seq<Rule>, r3: seq<Rule>, r4: seq<Rule>)
    requires InPlaces(r0, 0, 1) && InPlaces(r1, 1, 5) && InPlaces(r2, 5, 9) && InPlaces(r3, 9, 13)
    requires InPlaces(r4, 13, 14)
    ensures InPlaces(r0 + r1 + r2 + r3 + r4, 0, 14)
  {
    PlacesJoin(r0, r1, 0, 1, 5);
    PlacesJoin(r0 + r1, r2, 0, 5, 9);
    PlacesJoin(r0 + r1 + r2, r3, 0, 9, 13);
    PlacesJoin(r0 + r1 + r2 + r3, r4, 0, 13, 14);
  }

  method ValidateInstances(c: HotConfig, before: seq<Rule>) returns (errors: seq<Rule>)
    ensures errors == before + BrokenInstances(c)
  {
    errors := before;
    if c.health.checkIntervalSecs == 0 { errors := errors + [CheckInterval]; }
    if c.health.fuelQuota == 0 { errors := errors + [FuelQuota]; }
    if c.health.memoryPages == 0 { errors := errors + [MemoryPages]; }
    if c.health.maxInstances == 0 { errors := errors + [MaxInstances]; }
  }

  method ValidateCapacity(c: HotConfig, before: seq<Rule>) returns (errors: seq<Rule>)
    ensures errors == before + BrokenCapacity(c)
  {
    errors := before;
    if c.health.minDiskFreeBytes == 0 { errors := errors + [DiskFreeBytes]; }
    if c.health.minDiskFreeInodes == 0 { errors := errors + [DiskFreeInodes]; }
    if c.health.maxMemoryBytes == 0 { errors := errors + [MaxMemory]; }
    var fits := CheckPool(c.health);
    if !fits { errors := errors + [PoolFits]; }
  }

  method ValidateLimits(c: HotConfig, before: seq<Rule>) returns (errors: seq<Rule>)
    ensures errors == before + BrokenLimits(c)
  {
    errors := before;
    if OutOfRange(c.gc.diskWarning) { errors := errors + [DiskWarningRange]; }
    if c.gc.keepVersions == 0 { errors := errors + [KeepVersions]; }
    if c.ebpf.fdSoft >= c.ebpf.fdHard { errors := errors + [FdOrder]; }
    if c.ebpf.memLow <= c.ebpf.memCritical { errors := errors + [MemoryOrder]; }
  }

  /** All broken rules are reported, in order, and no other. */
  method Validate(c: HotConfig) returns (r: Result<(), seq<Rule>>)
    ensures r.Ok? <==> Valid(c)
    ensures r.Err? ==> r.error == BrokenRules(c) && forall rule :: rule in r.error <==> Broken(rule, c)
  {
    var errors: seq<Rule> := [];
    if !KnownLevel(c.logging.level) { errors := [LogLevel]; }
    errors := ValidateLimits(c, errors);
    errors := ValidateInstances(c, errors);
    errors := ValidateCapacity(c, errors);
    if c.rateLimit.requestsPerSecond == 0 { errors := errors + [RequestRate]; }
    assert errors == BrokenRules(c);
    forall rule ensures rule in errors <==> Broken(rule, c) { BrokenRulesAre(c, rule); }
    if errors != [] {
      assert errors[0] in errors;
      return Err(errors);
    }
    return Ok(());
  }
}
