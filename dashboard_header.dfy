/** The header above the chart: one card per metric with a button that shows
    or hides the metric, and the metric's latest reading for the metrics that
    are shown. The selection is an ordered list of metric names. */
module DashboardHeader {
  import opened Types

  /** `Array.prototype.indexOf`: the first position of `x` in `s`, or -1. */
  function IndexOf(s: seq<string>, x: string): (i: int)
    ensures -1 <= i < |s|
    ensures i == -1 <==> x !in s
    ensures 0 <= i ==> s[i] == x && x !in s[..i]
  {
    if s == [] then -1
    else if s[0] == x then 0
    else
      var j := IndexOf(s[1..], x);
      if j == -1 then -1
      else
        assert s[..j + 1] == [s[0]] + s[1..][..j];
        j + 1
  }

  /** No name occurs twice. */
  predicate NoDuplicates(s: seq<string>) {
    forall i, j :: 0 <= i < j < |s| ==> s[i] != s[j]
  }

  /** The selection after a toggle: an absent metric is appended at the end,
      a present one has its first occurrence spliced out. */
  function Toggled(selection: seq<string>, metric: string): (r: seq<string>)
    ensures multiset(r) == if metric in selection then multiset(selection) - multiset{metric}
                           else multiset(selection) + multiset{metric}
  {
    var index := IndexOf(selection, metric);
    if index == -1 then selection + [metric]
    else
      assert selection == selection[..index] + [metric] + selection[index + 1..];
      selection[..index] + selection[index + 1..]
  }

  /** The click handler: copy the selection, then push or splice on the copy.
      The copy is a fresh value, so the caller's selection is never changed. */
  method HandleToggle(selection: seq<string>, metric: string) returns (sel: seq<string>)
    ensures sel == Toggled(selection, metric)
    ensures metric !in selection ==> sel == selection + [metric]
    ensures metric in selection ==> |sel| == |selection| - 1
  {
    sel := selection;
    var index := IndexOf(sel, metric);
    if index == -1 {
      sel := sel + [metric];
    } else {
      sel := sel[..index] + sel[index + 1..];
    }
  }

  /** Toggling an absent metric appends it and keeps everything else in order. */
  lemma ToggleAbsentAppends(selection: seq<string>, metric: string)
    requires metric !in selection
    ensures Toggled(selection, metric) == selection + [metric]
    ensures metric in Toggled(selection, metric)
  {
  }

  /** Toggling a present metric removes exactly its first occurrence: the
      elements before and after it stay, in order. */
  lemma TogglePresentRemovesFirst(selection: seq<string>, metric: string)
    requires metric in selection
    ensures exists i :: 0 <= i < |selection| && selection[i] == metric && metric !in selection[..i]
                        && Toggled(selection, metric) == selection[..i] + selection[i + 1..]
  {
    var i := IndexOf(selection, metric);
    assert 0 <= i < |selection| && selection[i] == metric && metric !in selection[..i];
  }

  /** Toggling keeps a duplicate-free selection duplicate-free. */
  lemma ToggleKeepsNoDuplicates(selection: seq<string>, metric: string)
    requires NoDuplicates(selection)
    ensures NoDuplicates(Toggled(selection, metric))
  {
    var r := Toggled(selection, metric);
    var index := IndexOf(selection, metric);
    if index != -1 {
      forall i, j | 0 <= i < j < |r| ensures r[i] != r[j] {
        var i' := if i < index then i else i + 1;
        var j' := if j < index then j else j + 1;
        assert r[i] == selection[i'] && r[j] == selection[j'];
      }
    }
  }

  /** Toggling a duplicate-free selection changes membership of `metric` only. */
  lemma ToggleMembership(selection: seq<string>, metric: string, other: string)
    requires NoDuplicates(selection)
    ensures other in Toggled(selection, metric) <==>
              (if other == metric then metric !in selection else other in selection)
  {
    var r := Toggled(selection, metric);
    var index := IndexOf(selection, metric);
    if index != -1 {
      assert selection == selection[..index] + [metric] + selection[index + 1..];
      if other == metric {
        assert metric !in selection[index + 1..] by {
          forall k | index + 1 <= k < |selection| ensures selection[k] != metric {
            assert selection[index] == metric;
          }
        }
      }
    }
  }

  /** Toggling an absent metric twice gives back exactly the same list. */
  lemma ToggleTwiceAbsentRestores(selection: seq<string>, metric: string)
    requires metric !in selection
    ensures Toggled(Toggled(selection, metric), metric) == selection
  {
    var once := selection + [metric];
    assert once[..|selection|] == selection;
  }

  /** Toggling a present metric of a duplicate-free list twice keeps its
      membership but moves it to the end. */
  lemma ToggleTwicePresentMovesToEnd(selection: seq<string>, metric: string)
    requires NoDuplicates(selection)
    requires metric in selection
    ensures var index := IndexOf(selection, metric);
            Toggled(Toggled(selection, metric), metric)
              == selection[..index] + selection[index + 1..] + [metric]
  {
    ToggleMembership(selection, metric, metric);
  }

  /** Toggling twice restores every name's membership in a duplicate-free selection. */
  lemma {:induction false} ToggleTwiceRestoresMembership(selection: seq<string>, metric: string, other: string)
    requires NoDuplicates(selection)
    ensures other in Toggled(Toggled(selection, metric), metric) <==> other in selection
  {
    ToggleKeepsNoDuplicates(selection, metric);
    ToggleMembership(selection, metric, other);
    ToggleMembership(Toggled(selection, metric), metric, other);
    ToggleMembership(selection, metric, metric);
  }

  /** `Array.prototype.find` on the latest-value list, as a position: the first
      entry for `metric`, or -1. */
  function FirstEntry(latestData: seq<Measurement>, metric: string): (i: int)
    ensures -1 <= i < |latestData|
    ensures i == -1 <==> forall k :: 0 <= k < |latestData| ==> latestData[k].metric != metric
    ensures 0 <= i ==> latestData[i].metric == metric
                       && forall k :: 0 <= k < i ==> latestData[k].metric != metric
  {
    if latestData == [] then -1
    else if latestData[0].metric == metric then 0
    else
      var j := FirstEntry(latestData[1..], metric);
      if j == -1 then -1 else j + 1
  }

  /** The text shown on a metric's card: the value and unit of the metric's
      first latest-value entry when the metric is selected, otherwise empty. */
  function GetValue(selection: seq<string>, latestData: seq<Measurement>, metric: string): (r: string)
    ensures metric !in selection ==> r == ""
    ensures (metric in selection && forall k :: 0 <= k < |latestData| ==> latestData[k].metric != metric)
              ==> r == ""
    ensures forall k :: (0 <= k < |latestData| && latestData[k].metric == metric && metric in selection
                         && forall j :: 0 <= j < k ==> latestData[j].metric != metric)
                        ==> r == NumberToString(latestData[k].value) + latestData[k].unit
  {
    if IndexOf(selection, metric) > -1 then
      var index := FirstEntry(latestData, metric);
      if index != -1 then NumberToString(latestData[index].value) + latestData[index].unit else ""
    else ""
  }

  /** The card text of a selected metric determines the value of its first
      entry: the number can be read back from the text. */
  lemma GetValueDeterminesValue(selection: seq<string>, latestData: seq<Measurement>, metric: string, k: nat, v: int)
    requires metric in selection
    requires k < |latestData| && latestData[k].metric == metric
    requires forall j :: 0 <= j < k ==> latestData[j].metric != metric
    requires GetValue(selection, latestData, metric) == NumberToString(v) + latestData[k].unit
    ensures latestData[k].value == v
  {
    var shown, expected := NumberToString(latestData[k].value), NumberToString(v);
    var text := GetValue(selection, latestData, metric);
    assert text == shown + latestData[k].unit;
    assert shown == text[..|shown|] && expected == text[..|expected|];
    NumberToStringInjective(latestData[k].value, v);
  }
}
