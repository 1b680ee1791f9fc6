/** The strategies that drop repeated stylesheet links. */
module StylesheetDeduplication {
  import opened Wrappers
  import opened Html

  /** No strategy, the identity strategy, or the simple strategy. */
  datatype Strategy = Unset | Identity | Simple

  function Href(sheet: Stylesheet): Option<string> {
    match GetAttr(sheet, "href")
    case None => None
    case Some(a) => Some(a.val)
  }

  /** No earlier stylesheet has this one's target. */
  ghost predicate IsFirst(sheets: seq<Stylesheet>, i: nat)
    requires i < |sheets|
  {
    Href(sheets[i]).Some? && forall j :: 0 <= j < i ==> Href(sheets[j]) != Href(sheets[i])
  }

  /** Every stylesheet has a target and no two share one. */
  ghost predicate AllFirst(sheets: seq<Stylesheet>) {
    forall i: nat :: i < |sheets| ==> IsFirst(sheets, i)
  }

  /** The subsequence of first occurrences. */
  ghost function FirstOccurrences(sheets: seq<Stylesheet>): seq<Stylesheet> {
    if sheets == [] then []
    else
      var n := |sheets| - 1;
      FirstOccurrences(sheets[..n]) + if IsFirst(sheets, n) then [sheets[n]] else []
  }

  ghost function Deduplicated(strategy: Strategy, sheets: seq<Stylesheet>): seq<Stylesheet> {
    if strategy == Simple then FirstOccurrences(sheets) else sheets
  }

  method Deduplicate(sheets: seq<Stylesheet>) returns (result: seq<Stylesheet>)
    ensures result == FirstOccurrences(sheets)
  {
    result := [];
    var knownHrefs := {};
    var i := 0;
    while i < |sheets|
      invariant 0 <= i <= |sheets|
      invariant result == FirstOccurrences(sheets[..i])
      invariant forall href :: href in knownHrefs <==> exists j :: 0 <= j < i && Href(sheets[j]) == Some(href)
    {
      var seen := sheets[..i + 1];
      assert seen[..i] == sheets[..i] && forall j :: 0 <= j <= i ==> seen[j] == sheets[j];
      var hrefAttr := GetAttr(sheets[i], "href");
      if hrefAttr.Some? {
        var href := hrefAttr.value.val;
        assert Href(sheets[i]) == Some(href);
        if href !in knownHrefs {
          assert IsFirst(seen, i);
          result := result + [sheets[i]];
          knownHrefs := knownHrefs + {href};
        } else {
          assert !IsFirst(seen, i);
        }
      }
      i := i + 1;
    }
    assert sheets[..i] == sheets;
  }

  /** Every stylesheet of the result has a target, no two share one, and no target is lost. */
  lemma {:induction false} DeduplicatedTargets(sheets: seq<Stylesheet>)
    ensures var r := FirstOccurrences(sheets);
            && AllFirst(r)
            && (forall s :: s in r ==> s in sheets)
            && (forall s :: s in sheets && Href(s).Some? ==> exists t :: t in r && Href(t) == Href(s))
  {
    if sheets != [] {
      var n := |sheets| - 1;
      var before, r := FirstOccurrences(sheets[..n]), FirstOccurrences(sheets);
      DeduplicatedTargets(sheets[..n]);
      assert forall i :: 0 <= i < |before| ==> r[i] == before[i] && before[i] in before;
      assert forall s :: s in sheets[..n] ==> s in sheets;
      forall i: nat | i < |r| ensures IsFirst(r, i) {
        if i < |before| {
          assert IsFirst(before, i);
        } else {
          forall j | 0 <= j < i ensures Href(r[j]) != Href(r[i]) { assert before[j] in sheets[..n]; }
        }
      }
      forall s | s in sheets && Href(s).Some? ensures exists t :: t in r && Href(t) == Href(s) {
        TargetKept(sheets, s);
      }
    }
  }

  lemma {:induction false} TargetKept(sheets: seq<Stylesheet>, s: Stylesheet)
    requires s in sheets && Href(s).Some?
    ensures exists t :: t in FirstOccurrences(sheets) && Href(t) == Href(s)
  {
    var n := |sheets| - 1;
    if exists e :: e in sheets[..n] && Href(e) == Href(s) {
      var e :| e in sheets[..n] && Href(e) == Href(s);
      TargetKept(sheets[..n], e);
      var t :| t in FirstOccurrences(sheets[..n]) && Href(t) == Href(e);
      assert t in FirstOccurrences(sheets);
    } else {
      assert sheets == sheets[..n] + [sheets[n]];
      assert forall j :: 0 <= j < n ==> sheets[j] in sheets[..n];
      assert s == sheets[n] && IsFirst(sheets, n);
      assert FirstOccurrences(sheets)[|FirstOccurrences(sheets)| - 1] == s;
    }
  }

  lemma {:induction false} NothingToDrop(sheets: seq<Stylesheet>)
    requires AllFirst(sheets)
    ensures FirstOccurrences(sheets) == sheets
  {
    if sheets != [] {
      var n := |sheets| - 1;
      assert IsFirst(sheets, n);
      var front := sheets[..n];
      forall i: nat | i < n ensures IsFirst(front, i) {
        assert IsFirst(sheets, i) && front[i] == sheets[i];
        assert forall j :: 0 <= j < i ==> front[j] == sheets[j];
      }
      NothingToDrop(front);
      assert sheets == front + [sheets[n]];
    }
  }

  // ------------------------------------------------------------------------------ which links stay

  /** This is the value of the link's first attribute named href. */
  ghost predicate Targets(sheet: Stylesheet, target: string) {
    exists i :: 0 <= i < |sheet| && sheet[i].key == "href" && sheet[i].val == target && forall j :: 0 <= j < i ==> sheet[j].key != "href"
  }

  lemma TargetsExactly(sheet: Stylesheet, target: string)
    ensures Href(sheet) == Some(target) <==> Targets(sheet, target)
  {
    FirstAttr(sheet, "href");
  }

  /** The first link to its target. */
  ghost predicate Opens(sheets: seq<Stylesheet>, i: nat)
    requires i < |sheets|
  {
    exists target :: Targets(sheets[i], target) && forall j :: 0 <= j < i ==> !Targets(sheets[j], target)
  }

  lemma OpensExactly(sheets: seq<Stylesheet>, i: nat)
    requires i < |sheets|
    ensures IsFirst(sheets, i) <==> Opens(sheets, i)
  {
    if IsFirst(sheets, i) {
      var target := Href(sheets[i]).value;
      TargetsExactly(sheets[i], target);
      forall j | 0 <= j < i ensures !Targets(sheets[j], target) { TargetsExactly(sheets[j], target); }
    }
    if Opens(sheets, i) {
      var target :| Targets(sheets[i], target) && forall j :: 0 <= j < i ==> !Targets(sheets[j], target);
      TargetsExactly(sheets[i], target);
      forall j | 0 <= j < i ensures Href(sheets[j]) != Some(target) { TargetsExactly(sheets[j], target); }
    }
  }

  ghost predicate Increasing(at: seq<nat>) {
    forall i, j :: 0 <= i < j < |at| ==> at[i] < at[j]
  }

  /** The links at these places, in their order. */
  ghost predicate Selects(at: seq<nat>, sheets: seq<Stylesheet>, kept: seq<Stylesheet>) {
    Increasing(at) && |at| == |kept| && forall k :: 0 <= k < |at| ==> at[k] < |sheets| && kept[k] == sheets[at[k]]
  }

  lemma {:induction false} FirstSelected(sheets: seq<Stylesheet>) returns (at: seq<nat>)
    ensures Selects(at, sheets, FirstOccurrences(sheets))
    ensures forall i: nat :: i < |sheets| ==> (i in at <==> Opens(sheets, i))
  {
    if sheets == [] {
      at := [];
    } else {
      var n := |sheets| - 1;
      var front := FirstSelected(sheets[..n]);
      at := front + if IsFirst(sheets, n) then [n] else [];
      forall i: nat | i < |sheets| ensures i in at <==> Opens(sheets, i) {
        OpensExactly(sheets, i);
        if i < n { OpensExactly(sheets[..n], i); }
      }
    }
  }

  /** Whatever stays, stays in its order. With the simple strategy it is the first link to every target, and without it everything. */
  lemma KeptExactly(strategy: Strategy, sheets: seq<Stylesheet>) returns (at: seq<nat>)
    ensures Selects(at, sheets, Deduplicated(strategy, sheets))
    ensures forall i: nat :: i < |sheets| ==> (i in at <==> strategy != Simple || Opens(sheets, i))
  {
    if strategy == Simple {
      at := FirstSelected(sheets);
    } else {
      at := seq(|sheets|, i requires 0 <= i < |sheets| => i);
      forall i: nat | i < |sheets| ensures i in at { assert at[i] == i; }
    }
  }

  /** De-duplicating again changes nothing. */
  lemma DeduplicateIdempotent(strategy: Strategy, sheets: seq<Stylesheet>)
    ensures Deduplicated(strategy, Deduplicated(strategy, sheets)) == Deduplicated(strategy, sheets)
  {
    DeduplicatedTargets(sheets);
    NothingToDrop(FirstOccurrences(sheets));
  }
}
