/** SnapRAID configurations: built from an array, printed by two printers, and read back. */
module Snapraid {
  import opened Wrappers
  import opened Text
  import opened Api

  datatype ParityEntry = ParityEntry(index: nat, device: string, mountPoint: string)

  datatype DataEntry = DataEntry(tag: string, device: string, mountPoint: string)

  datatype Config = Config(parity: seq<ParityEntry>, data: seq<DataEntry>, contentFiles: seq<string>, excludes: seq<string>)

  // ---------------------------------------------------------------- building

  /** buildSnapraidConfig. */
  method BuildSnapraidConfig(spec: ArraySpec, data: seq<Disk>, parity: seq<Disk>) returns (cfg: Config)
    ensures |cfg.parity| == |parity| && |cfg.data| == |data|
    ensures forall i | 0 <= i < |parity| :: cfg.parity[i] == ParityEntry(i + 1, parity[i].spec.device, parity[i].spec.mountPoint)
    ensures forall i | 0 <= i < |data| :: cfg.data[i] == DataEntry("d" + Decimal(i + 1), data[i].spec.device, data[i].spec.mountPoint)
    ensures cfg.excludes == if spec.snapraid.Some? then spec.snapraid.value.excludePatterns else []
    ensures if spec.snapraid.Some? && spec.snapraid.value.contentFiles != []
            then cfg.contentFiles == spec.snapraid.value.contentFiles
            else |cfg.contentFiles| == |data| && forall i | 0 <= i < |data| :: cfg.contentFiles[i] == data[i].spec.mountPoint + "/.snapraid.content"
  {
    cfg := Config([], [], [], []);
    for i := 0 to |parity|
      invariant cfg.data == [] && cfg.contentFiles == [] && cfg.excludes == [] && |cfg.parity| == i
      invariant forall k | 0 <= k < i :: cfg.parity[k] == ParityEntry(k + 1, parity[k].spec.device, parity[k].spec.mountPoint)
    {
      cfg := cfg.(parity := cfg.parity + [ParityEntry(i + 1, parity[i].spec.device, parity[i].spec.mountPoint)]);
    }
    ghost var parityEntries := cfg.parity;
    for i := 0 to |data|
      invariant cfg.parity == parityEntries && cfg.contentFiles == [] && cfg.excludes == [] && |cfg.data| == i
      invariant forall k | 0 <= k < i :: cfg.data[k] == DataEntry(Label(k), data[k].spec.device, data[k].spec.mountPoint)
    {
      cfg := cfg.(data := cfg.data + [DataEntry("d" + Decimal(i + 1), data[i].spec.device, data[i].spec.mountPoint)]);
    }
    if spec.snapraid.Some? {
      cfg := cfg.(contentFiles := spec.snapraid.value.contentFiles, excludes := spec.snapraid.value.excludePatterns);
    }
    if |cfg.contentFiles| == 0 && |data| > 0 {
      ghost var rest := cfg;
      for i := 0 to |data|
        invariant cfg == rest.(contentFiles := cfg.contentFiles) && |cfg.contentFiles| == i
        invariant forall k | 0 <= k < i :: cfg.contentFiles[k] == data[k].spec.mountPoint + "/.snapraid.content"
      {
        cfg := cfg.(contentFiles := cfg.contentFiles + [data[i].spec.mountPoint + "/.snapraid.content"]);
      }
    }
  }

  /** The label of the i-th data disk, counted from zero. */
  function Label(i: nat): string {
    "d" + Decimal(i + 1)
  }

  lemma LabelIsPlain(i: nat)
    ensures ' ' !in Label(i) && NoNewline(Label(i))
  {
    DecimalReadsBack(i + 1);
  }

  lemma LabelsDiffer(i: nat, j: nat)
    requires Label(i) == Label(j)
    ensures i == j
  {
    var x, y := Decimal(i + 1), Decimal(j + 1);
    assert ("d" + x)[1..] == x && ("d" + y)[1..] == y;
    DecimalIsInjective(i + 1, j + 1);
  }

  // ---------------------------------------------------------------- printing

  const HEADER := "# Generated by KubeNAS Operator"
  const PARITY_FILE := "/snapraid.parity"

  lemma HeaderIsComment()
    ensures HEADER != "" && HEADER[0] == '#' && NoNewline(HEADER)
  {
  }

  function ParityLine(p: ParityEntry): string {
    (if p.index == 1 then "parity " else Decimal(p.index) + "-parity ") + (p.mountPoint + PARITY_FILE)
  }

  function DataLine(tag: string, mountPoint: string): string {
    "data " + (tag + (" " + mountPoint))
  }

  function ParityLines(ps: seq<ParityEntry>): seq<string> {
    seq(|ps|, i requires 0 <= i < |ps| => ParityLine(ps[i]))
  }

  function DataLines(ds: seq<DataEntry>): seq<string> {
    seq(|ds|, i requires 0 <= i < |ds| => DataLine(ds[i].tag, ds[i].mountPoint))
  }

  function Prefixed(keyword: string, items: seq<string>): seq<string> {
    seq(|items|, i requires 0 <= i < |items| => keyword + items[i])
  }

  function ConfLines(cfg: Config): seq<string> {
    [HEADER, ""] + ParityLines(cfg.parity) + [""] + Prefixed("content ", cfg.contentFiles) + [""]
    + DataLines(cfg.data) + [""] + Prefixed("exclude ", cfg.excludes)
  }

  /** renderSnapraidConf, one section after the other. */
  method RenderSnapraidConf(cfg: Config) returns (conf: string)
    ensures conf == Unlines(ConfLines(cfg))
  {
    conf := HEADER + "\n\n";
    var parity := RenderParity(cfg.parity);
    var content := RenderPrefixed("content ", cfg.contentFiles);
    var data := RenderData(cfg.data);
    var exclude := RenderPrefixed("exclude ", cfg.excludes);
    conf := conf + parity + "\n" + content + "\n" + data + "\n" + exclude;
    SectionsJoin(cfg);
  }

  lemma SectionsJoin(cfg: Config)
    ensures Unlines(ConfLines(cfg))
         == HEADER + "\n\n" + Unlines(ParityLines(cfg.parity)) + "\n" + Unlines(Prefixed("content ", cfg.contentFiles)) + "\n"
            + Unlines(DataLines(cfg.data)) + "\n" + Unlines(Prefixed("exclude ", cfg.excludes))
  {
    FiveSections([HEADER, ""], [""], ParityLines(cfg.parity), Prefixed("content ", cfg.contentFiles),
                 DataLines(cfg.data), Prefixed("exclude ", cfg.excludes));
    HeaderText();
  }

  lemma HeaderText()
    ensures Unlines([HEADER, ""]) == HEADER + "\n\n" && Unlines([""]) == "\n"
  {
    TextOfTwo(HEADER);
  }

  lemma TextOfTwo(h: string)
    ensures Unlines([h, ""]) == h + "\n\n" && Unlines([""]) == "\n"
  {
    UnlinesSnoc([], h);
    UnlinesSnoc([h], "");
    UnlinesSnoc([], "");
    assert [] + [h] == [h] && [h] + [""] == [h, ""] && [] + [""] == [""];
    assert Unlines([h, ""]) == Unlines([h]) + "" + "\n";
    assert Unlines([h]) == "" + h + "\n";
  }

  lemma FiveSections(h: seq<string>, gap: seq<string>, p: seq<string>, c: seq<string>, d: seq<string>, e: seq<string>)
    ensures Unlines(h + p + gap + c + gap + d + gap + e)
         == Unlines(h) + Unlines(p) + Unlines(gap) + Unlines(c) + Unlines(gap) + Unlines(d) + Unlines(gap) + Unlines(e)
  {
    UnlinesConcat(h, p);
    UnlinesConcat(h + p, gap);
    UnlinesConcat(h + p + gap, c);
    UnlinesConcat(h + p + gap + c, gap);
    UnlinesConcat(h + p + gap + c + gap, d);
    UnlinesConcat(h + p + gap + c + gap + d, gap);
    UnlinesConcat(h + p + gap + c + gap + d + gap, e);
  }

  method RenderParity(ps: seq<ParityEntry>) returns (conf: string)
    ensures conf == Unlines(ParityLines(ps))
  {
    conf := "";
    for i := 0 to |ps|
      invariant conf == Unlines(ParityLines(ps)[..i])
    {
      var p := ps[i];
      assert ParityLines(ps)[..i + 1][..i] == ParityLines(ps)[..i];
      if p.index == 1 {
        conf := conf + ("parity " + (p.mountPoint + PARITY_FILE)) + "\n";
      } else {
        conf := conf + (Decimal(p.index) + "-parity " + (p.mountPoint + PARITY_FILE)) + "\n";
      }
    }
    assert ParityLines(ps)[..|ps|] == ParityLines(ps);
  }

  method RenderPrefixed(keyword: string, items: seq<string>) returns (conf: string)
    ensures conf == Unlines(Prefixed(keyword, items))
  {
    conf := "";
    for i := 0 to |items|
      invariant conf == Unlines(Prefixed(keyword, items)[..i])
    {
      assert Prefixed(keyword, items)[..i + 1][..i] == Prefixed(keyword, items)[..i];
      conf := conf + (keyword + items[i]) + "\n";
    }
    assert Prefixed(keyword, items)[..|items|] == Prefixed(keyword, items);
  }

  method RenderData(ds: seq<DataEntry>) returns (conf: string)
    ensures conf == Unlines(DataLines(ds))
  {
    conf := "";
    for i := 0 to |ds|
      invariant conf == Unlines(DataLines(ds)[..i])
    {
      assert DataLines(ds)[..i + 1][..i] == DataLines(ds)[..i];
      conf := conf + ("data " + (ds[i].tag + (" " + ds[i].mountPoint))) + "\n";
    }
    assert DataLines(ds)[..|ds|] == DataLines(ds);
  }
}
