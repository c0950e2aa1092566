/** The second printer of SnapRAID configurations, and its agreement with the operator's one. */
module SnapraidRender {
  import opened Wrappers
  import opened Text
  import opened Snapraid
  import opened Api

  /** The storage engine's configuration: data disks are a map from label to path, which a loop visits in any order. */
  datatype EngineConfig = EngineConfig(parity: seq<string>, data: map<string, string>, content: seq<string>, exclude: seq<string>)

  /** One possible iteration order of a map: every key exactly once. */
  ghost predicate Visits(order: seq<string>, m: map<string, string>) {
    && (forall i | 0 <= i < |order| :: order[i] in m)
    && (forall name | name in m :: name in order)
    && Distinct(order)
  }

  ghost predicate Distinct(names: seq<string>) {
    forall i, j | 0 <= i < j < |names| :: names[i] != names[j]
  }

  // ---------------------------------------------------------------- printing

  /** strings.Join with a newline between the lines. */
  function Join(lines: seq<string>): string {
    if lines == [] then ""
    else if |lines| == 1 then lines[0]
    else Join(lines[..|lines| - 1]) + "\n" + lines[|lines| - 1]
  }

  function EngineParityLine(i: nat, path: string): string {
    (if i == 0 then "parity " else Decimal(i + 1) + "-parity ") + path
  }

  function EngineParityLines(paths: seq<string>): seq<string> {
    seq(|paths|, i requires 0 <= i < |paths| => EngineParityLine(i, paths[i]))
  }

  function DataLinesOf(m: map<string, string>, order: seq<string>): seq<string>
    requires forall i | 0 <= i < |order| :: order[i] in m
  {
    seq(|order|, i requires 0 <= i < |order| => DataLine(order[i], m[order[i]]))
  }

  function EngineLines(cfg: EngineConfig, order: seq<string>): seq<string>
    requires forall i | 0 <= i < |order| :: order[i] in cfg.data
  {
    EngineParityLines(cfg.parity) + DataLinesOf(cfg.data, order) + Prefixed("content ", cfg.content) + Prefixed("exclude ", cfg.exclude)
  }

  /** Render, visiting the data disks in the given order. */
  method Render(cfg: EngineConfig, order: seq<string>) returns (text: string)
    requires Visits(order, cfg.data)
    ensures text == Join(EngineLines(cfg, order)) + "\n"
  {
    var lines: seq<string> := [];
    for i := 0 to |cfg.parity|
      invariant lines == EngineParityLines(cfg.parity)[..i]
    {
      var p := cfg.parity[i];
      if i == 0 {
        lines := lines + ["parity " + p];
      } else {
        lines := lines + [Decimal(i + 1) + "-parity " + p];
      }
    }
    assert lines == EngineParityLines(cfg.parity);
    ghost var before := lines;
    for i := 0 to |order|
      invariant lines == before + DataLinesOf(cfg.data, order)[..i]
    {
      lines := lines + ["data " + (order[i] + (" " + cfg.data[order[i]]))];
    }
    assert lines == before + DataLinesOf(cfg.data, order);
    before := lines;
    for i := 0 to |cfg.content|
      invariant lines == before + Prefixed("content ", cfg.content)[..i]
    {
      lines := lines + ["content " + cfg.content[i]];
    }
    assert lines == before + Prefixed("content ", cfg.content);
    before := lines;
    for i := 0 to |cfg.exclude|
      invariant lines == before + Prefixed("exclude ", cfg.exclude)[..i]
    {
      lines := lines + ["exclude " + cfg.exclude[i]];
    }
    assert lines == before + Prefixed("exclude ", cfg.exclude);
    text := Join(lines) + "\n";
  }

  lemma {:induction false} JoinIsUnlines(lines: seq<string>)
    requires lines != []
    ensures Join(lines) + "\n" == Unlines(lines)
  {
    if |lines| == 1 {
      assert lines == [] + [lines[0]];
      UnlinesSnoc([], lines[0]);
    } else {
      JoinIsUnlines(lines[..|lines| - 1]);
    }
  }

  // ---------------------------------------------------------------- significant lines

  predicate Significant(l: string) {
    l != "" && l[0] != '#'
  }

  /** How often each line that is neither blank nor a comment occurs. */
  ghost function Bag(lines: seq<string>): multiset<string> {
    if lines == [] then multiset{}
    else Bag(lines[..|lines| - 1]) + (if Significant(lines[|lines| - 1]) then multiset{lines[|lines| - 1]} else multiset{})
  }

  ghost function Meaning(text: string): multiset<string> {
    Bag(Lines(text))
  }

  lemma {:induction false} BagConcat(a: seq<string>, b: seq<string>)
    ensures Bag(a + b) == Bag(a) + Bag(b)
  {
    if b == [] {
      assert a + b == a;
    } else {
      BagConcat(a, b[..|b| - 1]);
      LastOfConcat(a, b);
    }
  }

  /** What printed lines mean, line by line; a printed line may itself break into several. */
  ghost function Total(lines: seq<string>): multiset<string> {
    if lines == [] then multiset{} else Total(lines[..|lines| - 1]) + Meaning(lines[|lines| - 1] + "\n")
  }

  lemma {:induction false} TotalConcat(a: seq<string>, b: seq<string>)
    ensures Total(a + b) == Total(a) + Total(b)
  {
    if b == [] {
      assert a + b == a;
    } else {
      TotalConcat(a, b[..|b| - 1]);
      LastOfConcat(a, b);
    }
  }

  lemma TotalOne(l: string)
    ensures Total([l]) == Meaning(l + "\n")
  {
    assert [l][..0] == [];
  }

  lemma {:induction false} MeaningOfUnlines(lines: seq<string>)
    ensures Meaning(Unlines(lines)) == Total(lines)
  {
    if lines != [] {
      var init, l := lines[..|lines| - 1], lines[|lines| - 1];
      MeaningOfUnlines(init);
      UnlinesTerminated(init);
      LinesConcat(Unlines(init), l + "\n");
      BagConcat(Lines(Unlines(init)), Lines(l + "\n"));
      assert Unlines(lines) == Unlines(init) + (l + "\n");
    }
  }

  lemma {:induction false} MeaningOfJoin(lines: seq<string>)
    ensures Meaning(Join(lines) + "\n") == Total(lines)
  {
    if lines == [] {
      MeansNothing("");
      assert Join(lines) + "\n" == "" + "\n";
    } else {
      JoinIsUnlines(lines);
      MeaningOfUnlines(lines);
    }
  }

  lemma MeansNothing(l: string)
    requires NoNewline(l) && !Significant(l)
    ensures Meaning(l + "\n") == multiset{}
  {
    LineOf(l);
    assert [l][..|[l]| - 1] == [];
    assert Bag([l]) == Bag([]) + multiset{};
  }

  // ---------------------------------------------------------------- iteration order

  lemma {:induction false} SplitTotal(m: map<string, string>, a: seq<string>, x: string, b: seq<string>)
    requires forall i | 0 <= i < |a + [x] + b| :: (a + [x] + b)[i] in m
    ensures x in m && (forall i | 0 <= i < |a + b| :: (a + b)[i] in m)
    ensures Total(DataLinesOf(m, a + [x] + b)) == Total(DataLinesOf(m, a + b)) + Meaning(DataLine(x, m[x]) + "\n")
  {
    var s := a + [x] + b;
    assert s[|a|] == x;
    forall i | 0 <= i < |a + b|
      ensures (a + b)[i] in m
    {
      assert (a + b)[i] == s[if i < |a| then i else i + 1];
    }
    var la, lx, lb := DataLinesOf(m, s)[..|a|], DataLine(x, m[x]), DataLinesOf(m, s)[|a| + 1..];
    assert DataLinesOf(m, s) == la + [lx] + lb;
    assert DataLinesOf(m, a + b) == la + lb;
    TotalConcat(la, [lx]);
    TotalConcat(la + [lx], lb);
    TotalConcat(la, lb);
    TotalOne(lx);
  }

  /** The order in which the data lines are printed does not matter. */
  lemma {:induction false} OrderDoesNotMatter(m: map<string, string>, a: seq<string>, b: seq<string>)
    requires forall i | 0 <= i < |a| :: a[i] in m
    requires forall i | 0 <= i < |b| :: b[i] in m
    requires multiset(a) == multiset(b)
    ensures Total(DataLinesOf(m, a)) == Total(DataLinesOf(m, b))
  {
    if a == [] {
      assert |multiset(b)| == |multiset(a)| == 0;
    } else {
      var init, x := a[..|a| - 1], a[|a| - 1];
      assert a == init + [x] + [] && init == init + [];
      var i := TakeOut(init, x, b);
      assert b == b[..i] + [x] + b[i + 1..];
      SplitTotal(m, init, x, []);
      SplitTotal(m, b[..i], x, b[i + 1..]);
      OrderDoesNotMatter(m, init, b[..i] + b[i + 1..]);
    }
  }

  /** An element of one ordering can be taken out of the other. */
  lemma TakeOut(init: seq<string>, x: string, b: seq<string>) returns (i: nat)
    requires multiset(init + [x] + []) == multiset(b)
    ensures i < |b| && b[i] == x && multiset(init) == multiset(b[..i] + b[i + 1..])
  {
    assert multiset(b)[x] > 0;
    i :| i < |b| && b[i] == x;
    assert b == b[..i] + [x] + b[i + 1..];
    assert multiset(b) == multiset(b[..i] + b[i + 1..]) + multiset{x};
    assert multiset(init + [x] + []) == multiset(init) + multiset{x};
    assert multiset(init) == multiset(b) - multiset{x};
  }

  lemma {:induction false} CountOfDistinct(s: seq<string>, x: string)
    requires Distinct(s)
    ensures multiset(s)[x] == if x in s then 1 else 0
  {
    if s != [] {
      var init, last := s[..|s| - 1], s[|s| - 1];
      assert s == init + [last];
      CountOfDistinct(init, x);
      assert last !in init;
    }
  }

  lemma {:induction false} SameElements(a: seq<string>, b: seq<string>)
    requires Distinct(a) && Distinct(b) && forall x :: x in a <==> x in b
    ensures multiset(a) == multiset(b)
  {
    forall x: string
      ensures multiset(a)[x] == multiset(b)[x]
    {
      CountOfDistinct(a, x);
      CountOfDistinct(b, x);
    }
  }

  // ---------------------------------------------------------------- the corresponding configuration

  ghost function DataMap(ds: seq<DataEntry>): map<string, string> {
    if ds == [] then map[] else DataMap(ds[..|ds| - 1])[ds[|ds| - 1].tag := ds[|ds| - 1].mountPoint]
  }

  ghost function Corresponding(cfg: Config): EngineConfig {
    EngineConfig(seq(|cfg.parity|, i requires 0 <= i < |cfg.parity| => cfg.parity[i].mountPoint + PARITY_FILE),
                 DataMap(cfg.data), cfg.contentFiles, cfg.excludes)
  }

  /** What building guarantees: parities numbered from one without gaps, data disks labelled d1, d2 and so on. */
  ghost predicate Built(cfg: Config) {
    && (forall i | 0 <= i < |cfg.parity| :: cfg.parity[i].index == i + 1)
    && (forall i | 0 <= i < |cfg.data| :: cfg.data[i].tag == Label(i))
  }

  function Tags(ds: seq<DataEntry>): seq<string> {
    seq(|ds|, i requires 0 <= i < |ds| => ds[i].tag)
  }

  lemma {:induction false} MapOfDistinct(ds: seq<DataEntry>)
    requires Distinct(Tags(ds))
    ensures forall i | 0 <= i < |ds| :: ds[i].tag in DataMap(ds) && DataMap(ds)[ds[i].tag] == ds[i].mountPoint
    ensures forall name :: name in DataMap(ds) <==> name in Tags(ds)
  {
    if ds != [] {
      var init, last := ds[..|ds| - 1], ds[|ds| - 1];
      assert Tags(ds) == Tags(init) + [last.tag];
      forall i, j | 0 <= i < j < |init|
        ensures Tags(init)[i] != Tags(init)[j]
      {
        assert Tags(ds)[i] == Tags(init)[i] && Tags(ds)[j] == Tags(init)[j];
      }
      MapOfDistinct(init);
      forall i | 0 <= i < |init|
        ensures ds[i] == init[i] && ds[i].tag != last.tag
      {
        assert Tags(ds)[i] != Tags(ds)[|init|];
      }
    }
  }

  lemma BuiltIsDistinct(cfg: Config)
    requires Built(cfg)
    ensures Distinct(Tags(cfg.data))
  {
    forall i, j | 0 <= i < j < |cfg.data|
      ensures Tags(cfg.data)[i] != Tags(cfg.data)[j]
    {
      if Label(i) == Label(j) {
        LabelsDiffer(i, j);
      }
    }
  }

  lemma DataMeansTheSame(cfg: Config, order: seq<string>)
    requires Built(cfg) && Visits(order, DataMap(cfg.data))
    ensures Total(DataLinesOf(DataMap(cfg.data), order)) == Total(DataLines(cfg.data))
  {
    var m := DataMap(cfg.data);
    BuiltIsDistinct(cfg);
    MapOfDistinct(cfg.data);
    forall x: string
      ensures x in order <==> x in Tags(cfg.data)
    {
    }
    SameElements(order, Tags(cfg.data));
    OrderDoesNotMatter(m, order, Tags(cfg.data));
    assert DataLinesOf(m, Tags(cfg.data)) == DataLines(cfg.data);
  }

  lemma SameParityLines(cfg: Config)
    requires Built(cfg)
    ensures EngineParityLines(Corresponding(cfg).parity) == ParityLines(cfg.parity)
  {
  }

  lemma TotalOfEngineLines(cfg: EngineConfig, order: seq<string>)
    requires forall i | 0 <= i < |order| :: order[i] in cfg.data
    ensures Total(EngineLines(cfg, order))
         == Total(EngineParityLines(cfg.parity)) + Total(DataLinesOf(cfg.data, order))
            + Total(Prefixed("content ", cfg.content)) + Total(Prefixed("exclude ", cfg.exclude))
  {
    var p, d, c := EngineParityLines(cfg.parity), DataLinesOf(cfg.data, order), Prefixed("content ", cfg.content);
    TotalConcat(p, d);
    TotalConcat(p + d, c);
    TotalConcat(p + d + c, Prefixed("exclude ", cfg.exclude));
  }

  lemma TotalOfConfLines(cfg: Config)
    ensures Total(ConfLines(cfg))
         == Total(ParityLines(cfg.parity)) + Total(Prefixed("content ", cfg.contentFiles))
            + Total(DataLines(cfg.data)) + Total(Prefixed("exclude ", cfg.excludes))
  {
    TotalOfSections([HEADER, ""], [""], ParityLines(cfg.parity), Prefixed("content ", cfg.contentFiles),
                    DataLines(cfg.data), Prefixed("exclude ", cfg.excludes));
    HeadingMeansNothing();
  }

  lemma HeadingMeansNothing()
    ensures Total([HEADER, ""]) == multiset{} && Total([""]) == multiset{}
  {
    HeaderIsComment();
    CommentMeansNothing(HEADER);
  }

  lemma CommentMeansNothing(h: string)
    requires NoNewline(h) && !Significant(h)
    ensures Total([h, ""]) == multiset{} && Total([""]) == multiset{}
  {
    MeansNothing("");
    MeansNothing(h);
    TotalOne("");
    TotalOne(h);
    TotalConcat([h], [""]);
    assert [h] + [""] == [h, ""];
  }

  lemma TotalOfSections(h: seq<string>, gap: seq<string>, p: seq<string>, c: seq<string>, d: seq<string>, e: seq<string>)
    ensures Total(h + p + gap + c + gap + d + gap + e)
         == Total(h) + Total(p) + Total(gap) + Total(c) + Total(gap) + Total(d) + Total(gap) + Total(e)
  {
    TotalConcat(h, p);
    TotalConcat(h + p, gap);
    TotalConcat(h + p + gap, c);
    TotalConcat(h + p + gap + c, gap);
    TotalConcat(h + p + gap + c + gap, d);
    TotalConcat(h + p + gap + c + gap + d, gap);
    TotalConcat(h + p + gap + c + gap + d + gap, e);
  }

  /** Blank and comment lines aside, both printers print the same lines equally often, whatever the iteration order. */
  lemma PrintersAgree(cfg: Config, order: seq<string>)
    requires Built(cfg) && Visits(order, Corresponding(cfg).data)
    ensures Meaning(Unlines(ConfLines(cfg))) == Meaning(Join(EngineLines(Corresponding(cfg), order)) + "\n")
  {
    MeaningOfUnlines(ConfLines(cfg));
    MeaningOfJoin(EngineLines(Corresponding(cfg), order));
    TotalOfConfLines(cfg);
    TotalOfEngineLines(Corresponding(cfg), order);
    SameParityLines(cfg);
    DataMeansTheSame(cfg, order);
  }

  /** The printers do not agree on just any configuration: the operator prints a parity's number, the engine its position. */
  lemma ParityNumbersMatter(paths: seq<ParityEntry>, i: nat)
    requires i < |paths|
    ensures EngineParityLine(i, paths[i].mountPoint + PARITY_FILE) == ParityLine(paths[i]) <==> paths[i].index == i + 1
  {
    var p := paths[i];
    var path := p.mountPoint + PARITY_FILE;
    if i == 0 && p.index != 1 {
      NumberedDiffers(p.index, path);
    } else if i != 0 && p.index == 1 {
      NumberedDiffers(i + 1, path);
    } else if i != 0 && EngineParityLine(i, path) == ParityLine(p) {
      SameNumber(i + 1, p.index, path);
    }
  }

  lemma NumberedDiffers(n: nat, path: string)
    ensures Decimal(n) + "-parity " + path != "parity " + path
  {
    DecimalReadsBack(n);
    var d := Decimal(n);
    assert (d + "-parity " + path)[0] == d[0] && IsDigit(d[0]);
    assert ("parity " + path)[0] == 'p' && !IsDigit('p');
  }

  lemma SameNumber(m: nat, n: nat, path: string)
    requires Decimal(m) + "-parity " + path == Decimal(n) + "-parity " + path
    ensures m == n
  {
    var a, b := Decimal(m), Decimal(n);
    assert |a| == |b|;
    assert (a + "-parity " + path)[..|a|] == a && (b + "-parity " + path)[..|b|] == b;
    DecimalIsInjective(m, n);
  }
}
