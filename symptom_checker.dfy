/** The symptom checker screen of the frontend: a selection of symptom ids
    toggled one at a time, an analysis that needs at least one symptom, a
    reset, and a count line. */
module SymptomChecker {
  import opened Common
  import opened Text
  import opened Query
  import opened Labels

  /** The screen's state. */
  datatype Checker = Checker(selected: seq<string>, additionalInfo: string, showResults: bool)

  function Initial(): Checker {
    Checker([], "", false)
  }

  /** A present id is removed everywhere it occurs; an absent one is appended. */
  function Toggle(selected: seq<string>, id: string): (r: seq<string>)
    ensures forall x :: x in r <==> (x in selected) != (x == id)
  {
    if id in selected then
      FilterMembership(selected, x => x != id);
      Filter(selected, x => x != id)
    else selected + [id]
  }

  /** Removing an id keeps the other ids in their order. */
  lemma ToggleRemovesInOrder(selected: seq<string>, id: string)
    requires id in selected
    ensures IsSubsequence(Toggle(selected, id), selected)
    ensures id !in Toggle(selected, id)
  {
    FilterIsSubsequence(selected, x => x != id);
  }

  /** A duplicate-free selection stays duplicate-free. */
  lemma ToggleKeepsDistinct(selected: seq<string>, id: string)
    requires NoDuplicates(selected)
    ensures NoDuplicates(Toggle(selected, id))
  {
    if id in selected {
      DistinctFilter(selected, x => x != id);
    }
  }

  /** Toggling an absent id twice gives the selection back. */
  lemma ToggleTwice(selected: seq<string>, id: string)
    requires id !in selected
    ensures Toggle(Toggle(selected, id), id) == selected
  {
    var p := (x: string) => x != id;
    assert id in selected + [id];
    FilterAll(selected, p);
    FilterLast(selected, id, p);
  }

  lemma {:induction false} FilterLast(s: seq<string>, last: string, p: string -> bool)
    requires !p(last)
    ensures Filter(s + [last], p) == Filter(s, p)
    decreases |s|
  {
    if s == [] {
      assert Filter([last], p) == [] + Filter([last][1..], p);
    } else {
      assert (s + [last])[1..] == s[1..] + [last];
      FilterLast(s[1..], last, p);
    }
  }

  /** The outcome of pressing "Analyze Symptoms". */
  datatype Analysis = Refused(message: string) | Shown(state: Checker)

  function Analyse(c: Checker): (r: Analysis)
    ensures r.Refused? <==> c.selected == []
    ensures r.Shown? ==> r.state == c.(showResults := true)
  {
    if |c.selected| == 0 then Refused("Please select at least one symptom") else Shown(c.(showResults := true))
  }

  /** "Check Again": back to the empty selection and no extra text. */
  function Reset(c: Checker): (r: Checker)
    ensures r == Initial()
  {
    c.(showResults := false, selected := [], additionalInfo := "")
  }

  /** After a reset the analysis is refused until a symptom is picked again. */
  lemma ResetThenAnalyseRefused(c: Checker)
    ensures Analyse(Reset(c)).Refused?
    ensures Analyse(Reset(c).(selected := Toggle([], "1"))).Shown?
  {
    assert Toggle([], "1") == ["1"];
  }

  /** The count line: shown only for a non-empty selection. */
  function SelectedLine(selected: seq<string>): Option<string> {
    if |selected| > 0 then Some(CountLabel(|selected|, "symptom", "symptoms", "selected")) else None
  }

  lemma SelectedLineCounts(selected: seq<string>)
    ensures SelectedLine(selected).Some? <==> selected != []
    ensures SelectedLine(selected).Some? ==> DigitsValue(LeadingDigits(SelectedLine(selected).value)) == |selected|
    ensures |selected| == 1 ==> SelectedLine(selected) == Some("1 symptom selected")
  {
    if selected != [] {
      CountLabelReadsBack(|selected|, "symptom", "symptoms", "selected");
    }
    if |selected| == 1 {
      assert NatToString(1) == "1" by {
        assert DigitChar(1) == '1';
      }
      assert SelectedLine(selected) == Some(CountLabel(1, "symptom", "symptoms", "selected"));
      assert CountLabel(1, "symptom", "symptoms", "selected") == "1" + " " + "symptom" + " " + "selected";
      assert "1" + " " + "symptom" + " " + "selected" == "1 symptom selected";
    }
  }
}
