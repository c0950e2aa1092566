/** Status conditions, without their messages and timestamps. */
module Conditions {
  import opened Wrappers

  datatype Condition = Condition(kind: string, status: bool, reason: string)

  /** The list with the first condition of the same kind replaced, or with the new one appended. */
  function SetCondition(conditions: seq<Condition>, c: Condition): seq<Condition> {
    if conditions == [] then [c]
    else if conditions[0].kind == c.kind then [c] + conditions[1..]
    else [conditions[0]] + SetCondition(conditions[1..], c)
  }

  class ConditionList {
    var items: seq<Condition>

    constructor (items: seq<Condition>)
      ensures this.items == items
    {
      this.items := items;
    }

    /** setCondition: the caller's slice is updated in place. */
    method Set(c: Condition)
      modifies this
      ensures items == SetCondition(old(items), c)
    {
      for i := 0 to |items|
        invariant items == old(items)
        invariant forall j | 0 <= j < i :: items[j].kind != c.kind
      {
        if items[i].kind == c.kind {
          SetAt(items, c, i);
          items := items[i := c];
          return;
        }
      }
      SetAbsent(items, c);
      items := items + [c];
    }

    /** The tail of setArrayPhase, setPoolPhase and setSharePhase: patch the last element. */
    method SetReady(ready: bool, reason: string)
      modifies this
      ensures items == ReadyPatched(old(items), ready, reason)
    {
      Set(Condition("Ready", true, reason));
      if !ready {
        items := items[|items| - 1 := items[|items| - 1].(status := false)];
      }
    }
  }

  function PatchLast(conditions: seq<Condition>): seq<Condition>
    requires conditions != []
  {
    conditions[|conditions| - 1 := conditions[|conditions| - 1].(status := false)]
  }

  lemma SetNotEmpty(conditions: seq<Condition>, c: Condition)
    ensures SetCondition(conditions, c) != []
  {
  }

  function ReadyPatched(conditions: seq<Condition>, ready: bool, reason: string): seq<Condition> {
    var c := Condition("Ready", true, reason);
    SetNotEmpty(conditions, c);
    var updated := SetCondition(conditions, c);
    if ready then updated else PatchLast(updated)
  }

  /** The status of the first condition of a kind, which is what a reader of the list sees. */
  function StatusOf(conditions: seq<Condition>, kind: string): Option<bool> {
    if conditions == [] then None
    else if conditions[0].kind == kind then Some(conditions[0].status)
    else StatusOf(conditions[1..], kind)
  }

  lemma {:induction false} SetIsRead(conditions: seq<Condition>, c: Condition, kind: string)
    ensures StatusOf(SetCondition(conditions, c), kind)
         == if kind == c.kind then Some(c.status) else StatusOf(conditions, kind)
  {
    if conditions != [] && conditions[0].kind != c.kind {
      SetIsRead(conditions[1..], c, kind);
    }
  }

  lemma {:induction false} SetTwice(conditions: seq<Condition>, c: Condition)
    ensures SetCondition(SetCondition(conditions, c), c) == SetCondition(conditions, c)
  {
    if conditions != [] && conditions[0].kind != c.kind {
      SetTwice(conditions[1..], c);
    }
  }

  /** Writing the same phase again leaves the list as it is, wherever the Ready entry sits. */
  lemma {:induction false} PatchTwice(conditions: seq<Condition>, ready: bool, reason: string)
    ensures ReadyPatched(ReadyPatched(conditions, ready, reason), ready, reason) == ReadyPatched(conditions, ready, reason)
  {
    var c := Condition("Ready", true, reason);
    var once := SetCondition(conditions, c);
    SetTwice(conditions, c);
    SetNotEmpty(conditions, c);
    if !ready {
      SetIsRead(conditions, c, "Ready");
      var i := FirstOf(once, "Ready");
      SetAt(once, c, i);
      SetAt(PatchLast(once), c, i);
      assert once[i := c] == once;
      assert PatchLast(PatchLast(once)[i := c]) == PatchLast(once);
    }
  }

  lemma {:induction false} FirstOf(conditions: seq<Condition>, kind: string) returns (i: nat)
    requires StatusOf(conditions, kind).Some?
    ensures i < |conditions| && conditions[i].kind == kind
    ensures forall j | 0 <= j < i :: conditions[j].kind != kind
  {
    if conditions[0].kind == kind {
      i := 0;
    } else {
      i := FirstOf(conditions[1..], kind);
      i := i + 1;
      forall j | 0 <= j < i
        ensures conditions[j].kind != kind
      {
        if j > 0 { assert conditions[j] == conditions[1..][j - 1]; }
      }
    }
  }

  lemma {:induction false} SetAt(conditions: seq<Condition>, c: Condition, i: nat)
    requires i < |conditions| && conditions[i].kind == c.kind
    requires forall j | 0 <= j < i :: conditions[j].kind != c.kind
    ensures SetCondition(conditions, c) == conditions[i := c]
  {
    var rest := conditions[1..];
    if i > 0 {
      SetAt(rest, c, i - 1);
      assert [conditions[0]] + rest[i - 1 := c] == conditions[i := c];
    } else {
      assert [c] + rest == conditions[0 := c];
    }
  }

  /**
   Patching the last element reports the phase truthfully exactly when the list holds no Ready entry
   in front of another entry: otherwise the Ready entry stays True and some other condition is turned False.
   */
  lemma {:induction false} PatchIsTruthfulIff(conditions: seq<Condition>, ready: bool, reason: string)
    ensures StatusOf(ReadyPatched(conditions, ready, reason), "Ready") == Some(ready)
       <==> ready || forall i | 0 <= i < |conditions| - 1 :: conditions[i].kind != "Ready"
  {
    var c := Condition("Ready", true, reason);
    var once := SetCondition(conditions, c);
    SetNotEmpty(conditions, c);
    SetIsRead(conditions, c, "Ready");
    if !ready {
      PatchedStatus(once);
      if i :| 0 <= i < |conditions| - 1 && conditions[i].kind == "Ready" {
        FirstBefore(conditions, i);
        var f := FirstOf(conditions, "Ready");
        SetAt(conditions, c, f);
        assert f <= i && once[f].kind == "Ready";
      } else if conditions != [] && conditions[|conditions| - 1].kind == "Ready" {
        SetAt(conditions, c, |conditions| - 1);
      } else {
        SetAbsent(conditions, c);
      }
    }
  }

  lemma {:induction false} FirstBefore(conditions: seq<Condition>, i: nat)
    requires i < |conditions| && conditions[i].kind == "Ready"
    ensures StatusOf(conditions, "Ready").Some?
  {
    if conditions[0].kind != "Ready" {
      FirstBefore(conditions[1..], i - 1);
    }
  }

  lemma {:induction false} SetAbsent(conditions: seq<Condition>, c: Condition)
    requires forall i | 0 <= i < |conditions| :: conditions[i].kind != c.kind
    ensures SetCondition(conditions, c) == conditions + [c]
  {
    if conditions != [] {
      SetAbsent(conditions[1..], c);
      assert conditions == [conditions[0]] + conditions[1..];
    }
  }

  /** Patching the last element changes what a reader sees of Ready only if that element is the first Ready entry. */
  lemma {:induction false} PatchedStatus(conditions: seq<Condition>)
    requires StatusOf(conditions, "Ready").Some?
    ensures StatusOf(PatchLast(conditions), "Ready")
         == if exists i :: 0 <= i < |conditions| - 1 && conditions[i].kind == "Ready" then StatusOf(conditions, "Ready")
            else Some(false)
  {
    if conditions[0].kind == "Ready" {
      if |conditions| > 1 { assert PatchLast(conditions)[0] == conditions[0]; }
    } else {
      var rest := conditions[1..];
      PatchedStatus(rest);
      assert PatchLast(conditions)[1..] == PatchLast(rest);
      assert forall i | 0 <= i < |rest| :: rest[i] == conditions[i + 1];
      if i :| 0 <= i < |conditions| - 1 && conditions[i].kind == "Ready" { assert rest[i - 1].kind == "Ready"; }
    }
  }
}
