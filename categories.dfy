/** Theme selection for a CUSTOM game: at most four distinct theme indices, and the question count slider. */
module Categories {
  import opened Types

  /** Most themes that can be selected at once. */
  const MaxSelected: nat := 4

  /** No index occurs twice in `sel`. */
  predicate Distinct(sel: seq<int>) {
    forall i, j :: 0 <= i < j < |sel| ==> sel[i] != sel[j]
  }

  /** The selection well-formed: no index twice and at most four of them. */
  predicate ValidSelection(sel: seq<int>) {
    |sel| <= MaxSelected && Distinct(sel)
  }

  /** `sel` without `index`, the rest in order (`filter(i => i !== index)`). */
  function Without(sel: seq<int>, index: int): (r: seq<int>)
    ensures index !in r
    ensures forall x :: x in r <==> x in sel && x != index
    ensures |r| <= |sel|
  {
    if sel == [] then []
    else if sel[0] == index then Without(sel[1..], index)
    else [sel[0]] + Without(sel[1..], index)
  }

  /** Removing an index that is not there changes nothing. */
  lemma {:induction false} WithoutAbsent(sel: seq<int>, index: int)
    requires index !in sel
    ensures Without(sel, index) == sel
  {
    if sel != [] {
      WithoutAbsent(sel[1..], index);
    }
  }

  /** Removing keeps the remaining indices distinct. */
  lemma {:induction false} WithoutKeepsDistinct(sel: seq<int>, index: int)
    requires Distinct(sel)
    ensures Distinct(Without(sel, index))
  {
    if sel != [] {
      assert Distinct(sel[1..]) by {
        forall i, j | 0 <= i < j < |sel[1..]| ensures sel[1..][i] != sel[1..][j] {
          assert sel[1..][i] == sel[i + 1] && sel[1..][j] == sel[j + 1];
        }
      }
      WithoutKeepsDistinct(sel[1..], index);
      var rest := Without(sel[1..], index);
      if sel[0] != index {
        assert sel[0] !in sel[1..] by {
          forall k | 0 <= k < |sel[1..]| ensures sel[1..][k] != sel[0] {
            assert sel[1..][k] == sel[k + 1];
          }
        }
        var r := [sel[0]] + rest;
        assert Without(sel, index) == r;
        forall i, j | 0 <= i < j < |r| ensures r[i] != r[j] {
          if i == 0 {
            assert r[j] == rest[j - 1];
            assert r[j] in rest;
          } else {
            assert r[i] == rest[i - 1] && r[j] == rest[j - 1];
          }
        }
      }
    }
  }

  /** In a selection without duplicates, removing the index at position k leaves the others in their order. */
  lemma {:induction false} WithoutAt(sel: seq<int>, index: int)
    ensures Distinct(sel) ==>
      forall k :: 0 <= k < |sel| && sel[k] == index ==> Without(sel, index) == sel[..k] + sel[k + 1..]
  {
    if sel != [] && Distinct(sel) {
      var tail := sel[1..];
      assert Distinct(tail) by {
        forall i, j | 0 <= i < j < |tail| ensures tail[i] != tail[j] {
          assert tail[i] == sel[i + 1] && tail[j] == sel[j + 1];
        }
      }
      forall k | 0 <= k < |sel| && sel[k] == index ensures Without(sel, index) == sel[..k] + sel[k + 1..] {
        if k == 0 {
          assert index !in tail by {
            forall m | 0 <= m < |tail| ensures tail[m] != index {
              assert tail[m] == sel[m + 1];
            }
          }
          WithoutAbsent(tail, index);
          assert sel[..0] + sel[1..] == tail;
        } else {
          assert sel[0] != index;
          WithoutAt(tail, index);
          assert tail[k - 1] == index;
          assert Without(tail, index) == tail[..k - 1] + tail[k..];
          assert [sel[0]] + (tail[..k - 1] + tail[k..]) == sel[..k] + sel[k + 1..];
        }
      }
    }
  }

  /** Removing the last element. */
  lemma {:induction false} WithoutAppended(sel: seq<int>, index: int)
    requires index !in sel
    ensures Without(sel + [index], index) == sel
  {
    if sel == [] {
      assert [] + [index] == [index];
    } else {
      assert (sel + [index])[1..] == sel[1..] + [index];
      WithoutAppended(sel[1..], index);
    }
  }

  /**
   * Selecting or deselecting a theme (host only): a selected index is removed,
   * an unselected one appended while fewer than four are selected, and with four
   * selected nothing changes.
   */
  function Toggle(isHost: bool, sel: seq<int>, index: int): (r: seq<int>)
    ensures !isHost ==> r == sel
    ensures isHost && index in sel ==> index !in r && forall x :: x in r <==> x in sel && x != index
    ensures isHost && Distinct(sel) ==>
      forall k :: 0 <= k < |sel| && sel[k] == index ==> r == sel[..k] + sel[k + 1..]
    ensures isHost && index !in sel && |sel| < MaxSelected ==> r == sel + [index]
    ensures isHost && index !in sel && |sel| >= MaxSelected ==> r == sel
  {
    if !isHost then sel
    else if index in sel then
      WithoutAt(sel, index);
      Without(sel, index)
    else if |sel| < MaxSelected then sel + [index]
    else sel
  }

  /** Every toggle keeps the selection free of duplicates and at most four long. */
  lemma ToggleKeepsValid(isHost: bool, sel: seq<int>, index: int)
    requires ValidSelection(sel)
    ensures ValidSelection(Toggle(isHost, sel, index))
  {
    if isHost && index in sel {
      WithoutKeepsDistinct(sel, index);
    }
  }

  /** Toggling an unselected theme twice, with room to add it, gives back the original selection. */
  lemma ToggleTwice(sel: seq<int>, index: int)
    requires index !in sel && |sel| < MaxSelected
    ensures Toggle(true, Toggle(true, sel, index), index) == sel
  {
    WithoutAppended(sel, index);
  }

  /** Toggling keeps every selected index pointing at an offered theme when the toggled one does. */
  lemma ToggleKeepsInRange(isHost: bool, sel: seq<int>, index: int, themeCount: nat)
    requires forall k :: 0 <= k < |sel| ==> 0 <= sel[k] < themeCount
    requires 0 <= index < themeCount
    ensures var r := Toggle(isHost, sel, index); forall k :: 0 <= k < |r| ==> 0 <= r[k] < themeCount
  {
    var r := Toggle(isHost, sel, index);
    forall k | 0 <= k < |r| ensures 0 <= r[k] < themeCount {
      assert r[k] in r;
    }
  }

  /**
   * Confirming (host only, at least one theme selected) hands on the selected
   * themes in selection order and the question count.
   */
  function Confirm(isHost: bool, sel: seq<int>, themes: seq<string>, questionCount: int): (r: Option<(seq<string>, int)>)
    requires forall k :: 0 <= k < |sel| ==> 0 <= sel[k] < |themes|
    ensures r.Some? <==> isHost && |sel| >= 1
    ensures r.Some? ==> (|r.value.0| == |sel| && r.value.1 == questionCount
      && forall k :: 0 <= k < |sel| ==> r.value.0[k] == themes[sel[k]])
    ensures r.Some? && ValidSelection(sel) ==> 1 <= |r.value.0| <= MaxSelected
  {
    if isHost && |sel| >= 1 then Some((seq(|sel|, k requires 0 <= k < |sel| => themes[sel[k]]), questionCount))
    else None
  }

  /** Distinct selected indices name distinct themes when the offered themes are distinct. */
  lemma ConfirmDistinctThemes(sel: seq<int>, themes: seq<string>, questionCount: int)
    requires forall k :: 0 <= k < |sel| ==> 0 <= sel[k] < |themes|
    requires ValidSelection(sel) && |sel| >= 1
    requires forall i, j :: 0 <= i < j < |themes| ==> themes[i] != themes[j]
    ensures var names := Confirm(true, sel, themes, questionCount).value.0;
      forall i, j :: 0 <= i < j < |names| ==> names[i] != names[j]
  {
  }

  /** The question count the slider starts at. */
  const InitialQuestionCount: int := 20

  /** The values the slider offers: 5 to 40 in steps of 5. */
  function SliderValues(): (r: seq<int>)
    ensures |r| == 8
    ensures forall c :: c in r <==> 5 <= c <= 40 && c % 5 == 0
    ensures InitialQuestionCount in r
  {
    var r := seq(8, i requires 0 <= i < 8 => 5 * (i + 1));
    assert forall c :: 5 <= c <= 40 && c % 5 == 0 ==> r[c / 5 - 1] == c;
    r
  }
}
