/** The index of disk statuses the agent writes and the operator reads, keyed by mangled device paths. */
module StatusIndex {
  import opened Wrappers
  import opened Api

  /** strings.ReplaceAll for single characters. */
  function ReplaceAll(s: string, from: char, to: char): string {
    if s == "" then "" else [if s[0] == from then to else s[0]] + ReplaceAll(s[1..], from, to)
  }

  /** sanitizeDevicePath of the operator. */
  function SanitizeDevicePath(path: string): string {
    ReplaceAll(path, '/', '_')
  }

  /** sanitizeKey of the agent computes the operator's key. */
  method SanitizeKey(path: string) returns (result: string)
    ensures result == SanitizeDevicePath(path)
  {
    result := "";
    for i := 0 to |path|
      invariant result + ReplaceAll(path[i..], '/', '_') == ReplaceAll(path, '/', '_')
    {
      var c := path[i];
      assert path[i..][1..] == path[i + 1..];
      ghost var before := result;
      if c == '/' {
        result := result + "_";
      } else {
        result := result + [c];
      }
      assert result + ReplaceAll(path[i + 1..], '/', '_') == before + ReplaceAll(path[i..], '/', '_');
    }
  }

  lemma {:induction false} ReplacedAt(s: string, from: char, to: char)
    ensures |ReplaceAll(s, from, to)| == |s|
    ensures forall i | 0 <= i < |s| :: ReplaceAll(s, from, to)[i] == if s[i] == from then to else s[i]
  {
    if s != "" {
      ReplacedAt(s[1..], from, to);
    }
  }

  /** Two paths get the same key exactly when they differ only in having '/' where the other has '_'. */
  lemma {:induction false} CollideIff(a: string, b: string)
    ensures SanitizeDevicePath(a) == SanitizeDevicePath(b)
       <==> |a| == |b| && forall i | 0 <= i < |a| :: a[i] == b[i] || (a[i] in "/_" && b[i] in "/_")
  {
    ReplacedAt(a, '/', '_');
    ReplacedAt(b, '/', '_');
    var ka, kb := SanitizeDevicePath(a), SanitizeDevicePath(b);
    if ka == kb {
      forall i | 0 <= i < |a|
        ensures a[i] == b[i] || (a[i] in "/_" && b[i] in "/_")
      {
        assert ka[i] == kb[i];
      }
    }
  }

  lemma {:induction false} KeysAreInjective(a: string, b: string)
    requires '_' !in a && '_' !in b && SanitizeDevicePath(a) == SanitizeDevicePath(b)
    ensures a == b
  {
    CollideIff(a, b);
  }

  // ---------------------------------------------------------------- discovery

  datatype Device = Device(path: string, size: int, rotational: bool, model: string, serial: string, mountPoint: string)

  datatype SmartAnswer = SmartAnswer(score: real, failed: bool, summary: string)

  /** What smartctl and df answer for a device, if they do. */
  datatype Probe = Probe(smart: Option<SmartAnswer>, available: Option<int>)

  datatype Status = Status(path: string, report: AgentReport)

  function StatusFor(d: Device, p: Probe): Status {
    var smart := match p.smart case Some(a) => a case None => SmartAnswer(1.0, false, "UNKNOWN");
    var mounted := d.mountPoint != "";
    var available := if mounted && p.available.Some? then p.available.value else 0;
    Status(d.path, AgentReport(d.size, available, smart.score, smart.summary, d.serial, d.model, d.rotational, mounted, smart.failed, 0))
  }

  /** The statuses written one after the other; a later one with the same key wins. */
  function Index(statuses: seq<Status>): map<string, Status> {
    if statuses == [] then map[]
    else
      var last := statuses[|statuses| - 1];
      Index(statuses[..|statuses| - 1])[SanitizeDevicePath(last.path) := last]
  }

  function Statuses(devices: seq<Device>, probes: seq<Probe>): seq<Status>
    requires |probes| == |devices|
  {
    seq(|devices|, i requires 0 <= i < |devices| => StatusFor(devices[i], probes[i]))
  }

  /** One node's status ConfigMap, absent before the first discovery. */
  class StatusMap {
    var data: Option<map<string, Status>>

    constructor ()
      ensures data == None
    {
      data := None;
    }

    /** runDiscovery: build the index and store it, unless the devices cannot be listed. */
    method RunDiscovery(listOk: bool, devices: seq<Device>, probes: seq<Probe>, writeOk: bool)
      requires |probes| == |devices|
      modifies this
      ensures data == if listOk && writeOk then Some(Index(Statuses(devices, probes))) else old(data)
    {
      if !listOk {
        return;
      }
      var statusData: map<string, Status> := map[];
      for i := 0 to |devices|
        invariant data == old(data)
        invariant statusData == Index(Statuses(devices, probes)[..i])
      {
        var dev, probe := devices[i], probes[i];
        var score, failed, summary := 1.0, false, "UNKNOWN";
        if probe.smart.Some? {
          score, failed, summary := probe.smart.value.score, probe.smart.value.failed, probe.smart.value.summary;
        }
        var available := 0;
        if dev.mountPoint != "" {
          if probe.available.Some? {
            available := probe.available.value;
          }
        }
        var report := AgentReport(dev.size, available, score, summary, dev.serial, dev.model, dev.rotational, dev.mountPoint != "", failed, 0);
        var key := SanitizeKey(dev.path);
        ghost var all := Statuses(devices, probes);
        assert all[..i + 1][..i] == all[..i] && all[..i + 1][i] == Status(dev.path, report);
        statusData := statusData[key := Status(dev.path, report)];
      }
      assert Statuses(devices, probes)[..|devices|] == Statuses(devices, probes);
      UpsertConfigMap(statusData, writeOk);
    }

    method UpsertConfigMap(newData: map<string, Status>, writeOk: bool)
      modifies this
      ensures data == if writeOk then Some(newData) else old(data)
    {
      if writeOk {
        data := Some(newData);
      }
    }

    /**
     GetDiskStatus of the operator; readOk is false for API errors other than not-found, decodes tells whether an
     entry's text can be decoded.
     */
    method GetDiskStatus(path: string, readOk: bool, decodes: bool) returns (r: Result<AgentReport>)
      ensures r.Failure? <==> !readOk || (data.Some? && SanitizeDevicePath(path) in data.value && !decodes)
      ensures r.Success? ==> r == Success(if data.Some? then Found(data.value, path) else HEALTHY_DEFAULT)
    {
      if !readOk {
        return Failure("reading status ConfigMap");
      }
      if data.None? {
        return Success(HEALTHY_DEFAULT);
      }
      var key := SanitizeDevicePath(path);
      if key !in data.value {
        return Success(HEALTHY_DEFAULT);
      }
      if !decodes {
        return Failure("decoding status entry");
      }
      return Success(data.value[key].report);
    }

    /** The agent discovers, the operator asks for one of the devices: it gets what the agent found out about it. */
    method DiscoverAndAsk(devices: seq<Device>, probes: seq<Probe>, i: nat) returns (r: Result<AgentReport>)
      requires |probes| == |devices| && i < |devices|
      requires forall j, k | 0 <= j < k < |devices| :: devices[j].path != devices[k].path
      requires forall j | 0 <= j < |devices| :: '_' !in devices[j].path
      modifies this
      ensures r.Success? && ShowsDevice(r.value, devices[i], probes[i])
    {
      RunDiscovery(true, devices, probes, true);
      r := GetDiskStatus(devices[i].path, true, true);
      DiscoveryIsRead(devices, probes, i);
    }
  }

  function Found(data: map<string, Status>, path: string): AgentReport {
    var key := SanitizeDevicePath(path);
    if key in data then data[key].report else HEALTHY_DEFAULT
  }

  // ---------------------------------------------------------------- agreement

  ghost predicate DistinctPaths(statuses: seq<Status>) {
    forall i, j | 0 <= i < j < |statuses| :: statuses[i].path != statuses[j].path
  }

  /** The index holds, for each key, the last status written under it. */
  lemma {:induction false} IndexHoldsLast(statuses: seq<Status>, i: nat)
    requires i < |statuses|
    requires forall j | i < j < |statuses| :: SanitizeDevicePath(statuses[j].path) != SanitizeDevicePath(statuses[i].path)
    ensures var key := SanitizeDevicePath(statuses[i].path); key in Index(statuses) && Index(statuses)[key] == statuses[i]
  {
    var init := statuses[..|statuses| - 1];
    if i < |init| {
      assert init[i] == statuses[i];
      IndexHoldsLast(init, i);
    }
  }

  lemma {:induction false} IndexKeysAreListed(statuses: seq<Status>, key: string)
    ensures key in Index(statuses) <==> exists i :: 0 <= i < |statuses| && SanitizeDevicePath(statuses[i].path) == key
  {
    if statuses != [] {
      var n := |statuses| - 1;
      IndexKeysAreListed(statuses[..n], key);
      if i :| 0 <= i < n && SanitizeDevicePath(statuses[i].path) == key { assert SanitizeDevicePath(statuses[..n][i].path) == key; }
      if i :| 0 <= i < n && SanitizeDevicePath(statuses[..n][i].path) == key { assert SanitizeDevicePath(statuses[i].path) == key; }
    }
  }

  /** A discovered device is read back as itself exactly when no later device collides with it. */
  lemma {:induction false} OwnStatusIff(statuses: seq<Status>, i: nat)
    requires DistinctPaths(statuses) && i < |statuses|
    ensures var key := SanitizeDevicePath(statuses[i].path);
      key in Index(statuses)
      && (Index(statuses)[key] == statuses[i] <==> forall j | i < j < |statuses| :: SanitizeDevicePath(statuses[j].path) != key)
  {
    var key := SanitizeDevicePath(statuses[i].path);
    IndexKeysAreListed(statuses, key);
    var last := LastWith(statuses, key, i);
    IndexHoldsLast(statuses, last);
  }

  lemma {:induction false} LastWith(statuses: seq<Status>, key: string, i: nat) returns (last: nat)
    requires i < |statuses| && SanitizeDevicePath(statuses[i].path) == key
    ensures i <= last < |statuses| && SanitizeDevicePath(statuses[last].path) == key
    ensures forall j | last < j < |statuses| :: SanitizeDevicePath(statuses[j].path) != key
    decreases |statuses| - i
  {
    last := i;
    if j :| i < j < |statuses| && SanitizeDevicePath(statuses[j].path) == key {
      last := LastWith(statuses, key, j);
    }
  }

  /** For distinct devices without '_' in their paths the operator reads each device's own report. */
  lemma {:induction false} DiscoveredIsFound(statuses: seq<Status>, i: nat)
    requires DistinctPaths(statuses) && i < |statuses|
    requires forall j | 0 <= j < |statuses| :: '_' !in statuses[j].path
    ensures Found(Index(statuses), statuses[i].path) == statuses[i].report
  {
    forall j | i < j < |statuses|
      ensures SanitizeDevicePath(statuses[j].path) != SanitizeDevicePath(statuses[i].path)
    {
      if SanitizeDevicePath(statuses[j].path) == SanitizeDevicePath(statuses[i].path) {
        KeysAreInjective(statuses[i].path, statuses[j].path);
        assert false;
      }
    }
    OwnStatusIff(statuses, i);
  }

  /** A report says of a device what lsblk and, where they answered, smartctl and df said; without smartctl it passes for healthy. */
  predicate ShowsDevice(r: AgentReport, d: Device, p: Probe) {
    && r.capacity == d.size && r.serial == d.serial && r.model == d.model && r.rotational == d.rotational
    && r.mounted == (d.mountPoint != "") && r.ioErrors == 0
    && r.available == (if d.mountPoint != "" && p.available.Some? then p.available.value else 0)
    && r.health == (if p.smart.Some? then p.smart.value.score else 1.0)
    && r.smartFailed == (p.smart.Some? && p.smart.value.failed)
    && r.summary == (if p.smart.Some? then p.smart.value.summary else "UNKNOWN")
  }

  /** What the agent finds out about a device is what the operator reads for it. */
  lemma {:induction false} DiscoveryIsRead(devices: seq<Device>, probes: seq<Probe>, i: nat)
    requires |probes| == |devices| && i < |devices|
    requires forall j, k | 0 <= j < k < |devices| :: devices[j].path != devices[k].path
    requires forall j | 0 <= j < |devices| :: '_' !in devices[j].path
    ensures var index := Index(Statuses(devices, probes));
      SanitizeDevicePath(devices[i].path) in index && ShowsDevice(Found(index, devices[i].path), devices[i], probes[i])
      && Found(index, devices[i].path) == StatusFor(devices[i], probes[i]).report
  {
    var all := Statuses(devices, probes);
    assert all[i].path == devices[i].path;
    DiscoveredIsFound(all, i);
    OwnStatusIff(all, i);
  }

  /** And a key is missing, giving the healthy default, exactly when the device was not discovered. */
  lemma {:induction false} DefaultIffUndiscovered(statuses: seq<Status>, path: string)
    requires '_' !in path && forall j | 0 <= j < |statuses| :: '_' !in statuses[j].path
    ensures SanitizeDevicePath(path) !in Index(statuses) <==> forall j | 0 <= j < |statuses| :: statuses[j].path != path
    ensures SanitizeDevicePath(path) !in Index(statuses) ==>
              Found(Index(statuses), path) == AgentReport(0, 0, 1.0, "", "", "", false, false, false, 0)
  {
    IndexKeysAreListed(statuses, SanitizeDevicePath(path));
    if i :| 0 <= i < |statuses| && SanitizeDevicePath(statuses[i].path) == SanitizeDevicePath(path) {
      KeysAreInjective(statuses[i].path, path);
    }
  }
}
