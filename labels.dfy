/** `assign_reference_title` (the `doctree-read` hook): every ProbLog box of a freshly
    read document gets a titled label in the standard domain, so that a reference to it
    shows "ProbLog code box". The source checks its expectations with `assert`; here a
    failed check is an error value, and the labels written before it stay written. */
module Labels {
  import opened Wrappers
  import opened Text
  import opened Directive

  /** The default title of a ProbLog box reference. */
  const Title := "ProbLog code box"

  /** A titled label: where the target is and what a reference shows. */
  datatype Label = Label(docname: string, id: string, title: string)

  /** An anonymous label: where the target is. */
  datatype AnonLabel = AnonLabel(docname: string, id: string)

  /** The `names` and `ids` attributes of a ProbLog box node. */
  datatype BoxAttributes = BoxAttributes(names: seq<string>, ids: seq<string>)

  /** Which of the source's assertions fails for a box. */
  datatype LabelError =
    | NoName                          // `names` is empty
    | SeveralNames                    // `names` has more than one entry
    | NameOutsideNamespace(name: string)
    | NotOneId(name: string)          // `ids` does not have exactly one entry
    | NoAnonymousLabel(name: string)  // the name is not in `anonlabels`
    | AnonymousLabelElsewhere(name: string, found: AnonLabel)

  /** The standard domain's two label registries. */
  class StandardDomain {
    var labels: map<string, Label>
    var anonlabels: map<string, AnonLabel>

    constructor (labels: map<string, Label>, anonlabels: map<string, AnonLabel>)
      ensures this.labels == labels && this.anonlabels == anonlabels
    {
      this.labels := labels;
      this.anonlabels := anonlabels;
    }
  }

  /** The checks on one box, in the source's order. */
  function CheckBox(anonlabels: map<string, AnonLabel>, box: BoxAttributes, docname: string)
    : (r: Outcome<LabelError>)
    ensures r.Pass? <==>
              && |box.names| == 1 && StartsWith(box.names[0], Namespace)
              && |box.ids| == 1
              && box.names[0] in anonlabels
              && anonlabels[box.names[0]] == AnonLabel(docname, box.ids[0])
  {
    if box.names == [] then Fail(NoName)
    else if |box.names| != 1 then Fail(SeveralNames)
    else if !StartsWith(box.names[0], Namespace) then Fail(NameOutsideNamespace(box.names[0]))
    else if |box.ids| != 1 then Fail(NotOneId(box.names[0]))
    else if box.names[0] !in anonlabels then Fail(NoAnonymousLabel(box.names[0]))
    else if anonlabels[box.names[0]] != AnonLabel(docname, box.ids[0]) then
      Fail(AnonymousLabelElsewhere(box.names[0], anonlabels[box.names[0]]))
    else Pass
  }

  /** The label map after processing `boxes` in document order, and the first failed
      check if any: processing stops at the first box that fails. No label is removed,
      and the only names that gain one are names the boxes carry. */
  function AssignTitles(labels: map<string, Label>, anonlabels: map<string, AnonLabel>,
                        boxes: seq<BoxAttributes>, docname: string)
    : (r: (map<string, Label>, Outcome<LabelError>))
    ensures labels.Keys <= r.0.Keys <= labels.Keys + BoxNames(boxes)
    decreases |boxes|
  {
    if boxes == [] then (labels, Pass)
    else
      match CheckBox(anonlabels, boxes[0], docname)
      case Fail(e) => (labels, Fail(e))
      case Pass =>
        var box := boxes[0];
        BoxNamesTail(boxes);
        assert box.names[0] in BoxNames(boxes);
        AssignTitles(labels[box.names[0] := Label(docname, box.ids[0], Title)],
                     anonlabels, boxes[1..], docname)
  }

  /** The boxes before position `k` all pass their checks. */
  predicate PassUpTo(anonlabels: map<string, AnonLabel>, boxes: seq<BoxAttributes>,
                     docname: string, k: nat)
    requires k <= |boxes|
  {
    forall i :: 0 <= i < k ==> CheckBox(anonlabels, boxes[i], docname).Pass?
  }

  /** The processing fails exactly at the first box that fails its checks, with that
      box's error, and succeeds when every box passes. */
  lemma {:induction false} AssignTitlesOutcome(labels: map<string, Label>,
                                               anonlabels: map<string, AnonLabel>,
                                               boxes: seq<BoxAttributes>, docname: string)
    ensures var outcome := AssignTitles(labels, anonlabels, boxes, docname).1;
            && (outcome.Pass? <==> PassUpTo(anonlabels, boxes, docname, |boxes|))
            && (outcome.Fail? ==> exists k :: 0 <= k < |boxes| && PassUpTo(anonlabels, boxes, docname, k)
                                    && CheckBox(anonlabels, boxes[k], docname) == outcome)
    decreases |boxes|
  {
    if boxes != [] {
      var first := CheckBox(anonlabels, boxes[0], docname);
      if first.Pass? {
        var box := boxes[0];
        var next := labels[box.names[0] := Label(docname, box.ids[0], Title)];
        AssignTitlesOutcome(next, anonlabels, boxes[1..], docname);
        var outcome := AssignTitles(labels, anonlabels, boxes, docname).1;
        assert outcome == AssignTitles(next, anonlabels, boxes[1..], docname).1;
        if outcome.Fail? {
          var k :| 0 <= k < |boxes| - 1 && PassUpTo(anonlabels, boxes[1..], docname, k)
                   && CheckBox(anonlabels, boxes[1..][k], docname) == outcome;
          assert PassUpTo(anonlabels, boxes, docname, k + 1);
        }
        assert PassUpTo(anonlabels, boxes[1..], docname, |boxes| - 1) <==>
               PassUpTo(anonlabels, boxes, docname, |boxes|);
      } else {
        assert PassUpTo(anonlabels, boxes, docname, 0);
      }
    }
  }

  /** The names the boxes carry (the first of each box's names). */
  function BoxNames(boxes: seq<BoxAttributes>): set<string> {
    set i | 0 <= i < |boxes| && boxes[i].names != [] :: boxes[i].names[0]
  }

  /** Dropping the first box drops no other box's name. */
  lemma BoxNamesTail(boxes: seq<BoxAttributes>)
    requires boxes != []
    ensures BoxNames(boxes[1..]) <= BoxNames(boxes)
  {
    forall n | n in BoxNames(boxes[1..]) ensures n in BoxNames(boxes) {
      var i :| 0 <= i < |boxes[1..]| && boxes[1..][i].names != [] && boxes[1..][i].names[0] == n;
      assert boxes[i + 1] == boxes[1..][i];
    }
  }

  /** The titled label for a name: where its anonymous label points, with the title. */
  function Titled(anonlabels: map<string, AnonLabel>, name: string): Label
    requires name in anonlabels
  {
    Label(anonlabels[name].docname, anonlabels[name].id, Title)
  }

  /** Entries for names that no box carries are left as they were. */
  lemma {:induction false} AssignTitlesFrame(labels: map<string, Label>,
                                             anonlabels: map<string, AnonLabel>,
                                             boxes: seq<BoxAttributes>, docname: string,
                                             name: string)
    requires name !in BoxNames(boxes)
    ensures var result := AssignTitles(labels, anonlabels, boxes, docname).0;
            (name in result <==> name in labels) && (name in labels ==> result[name] == labels[name])
    decreases |boxes|
  {
    if boxes != [] && CheckBox(anonlabels, boxes[0], docname).Pass? {
      var box := boxes[0];
      assert box.names[0] in BoxNames(boxes);
      BoxNamesTail(boxes);
      AssignTitlesFrame(labels[box.names[0] := Label(docname, box.ids[0], Title)],
                        anonlabels, boxes[1..], docname, name);
    }
  }

  /** When the box at position `k` fails, the walk stops there: entries for names that no
      earlier box carries are left as they were, whatever the later boxes carry. */
  lemma {:induction false} AssignTitlesFailureFrame(labels: map<string, Label>,
                                                    anonlabels: map<string, AnonLabel>,
                                                    boxes: seq<BoxAttributes>, docname: string,
                                                    k: nat, name: string)
    requires k < |boxes| && PassUpTo(anonlabels, boxes, docname, k)
    requires CheckBox(anonlabels, boxes[k], docname).Fail?
    requires name !in BoxNames(boxes[..k])
    ensures var result := AssignTitles(labels, anonlabels, boxes, docname).0;
            (name in result <==> name in labels) && (name in labels ==> result[name] == labels[name])
    decreases k
  {
    if k > 0 {
      var box := boxes[0];
      assert CheckBox(anonlabels, box, docname).Pass?;
      assert boxes[..k][0] == box;
      assert box.names[0] in BoxNames(boxes[..k]);
      var rest := boxes[1..];
      assert PassUpTo(anonlabels, rest, docname, k - 1) by {
        forall i | 0 <= i < k - 1 ensures CheckBox(anonlabels, rest[i], docname).Pass? {
          assert rest[i] == boxes[i + 1];
        }
      }
      assert rest[k - 1] == boxes[k];
      assert BoxNames(rest[..k - 1]) <= BoxNames(boxes[..k]) by {
        forall n | n in BoxNames(rest[..k - 1]) ensures n in BoxNames(boxes[..k]) {
          var i :| 0 <= i < k - 1 && rest[..k - 1][i].names != [] && rest[..k - 1][i].names[0] == n;
          assert rest[..k - 1][i] == boxes[..k][i + 1];
        }
      }
      AssignTitlesFailureFrame(labels[box.names[0] := Label(docname, box.ids[0], Title)],
                               anonlabels, rest, docname, k - 1, name);
    }
  }

  /** A name that already has its titled label keeps it: a later box with the same name
      passes its checks only if it would write the very same label. */
  lemma {:induction false} AssignTitlesKeepsTitled(labels: map<string, Label>,
                                                   anonlabels: map<string, AnonLabel>,
                                                   boxes: seq<BoxAttributes>, docname: string,
                                                   name: string)
    requires name in labels && name in anonlabels && labels[name] == Titled(anonlabels, name)
    ensures var result := AssignTitles(labels, anonlabels, boxes, docname).0;
            name in result && result[name] == Titled(anonlabels, name)
    decreases |boxes|
  {
    if boxes != [] && CheckBox(anonlabels, boxes[0], docname).Pass? {
      var box := boxes[0];
      AssignTitlesKeepsTitled(labels[box.names[0] := Label(docname, box.ids[0], Title)],
                              anonlabels, boxes[1..], docname, name);
    }
  }

  /** Every box before the first failing one ends up with its titled label, pointing where
      its anonymous label points. */
  lemma {:induction false} AssignTitlesLabels(labels: map<string, Label>,
                                              anonlabels: map<string, AnonLabel>,
                                              boxes: seq<BoxAttributes>, docname: string,
                                              k: nat)
    requires k <= |boxes| && PassUpTo(anonlabels, boxes, docname, k)
    ensures var result := AssignTitles(labels, anonlabels, boxes, docname).0;
            forall i :: 0 <= i < k ==>
              && boxes[i].names != [] && boxes[i].names[0] in anonlabels
              && boxes[i].names[0] in result
              && result[boxes[i].names[0]] == Label(docname, boxes[i].ids[0], Title)
    decreases |boxes|
  {
    if k > 0 {
      var box := boxes[0];
      var next := labels[box.names[0] := Label(docname, box.ids[0], Title)];
      assert PassUpTo(anonlabels, boxes[1..], docname, k - 1) by {
        forall i | 0 <= i < k - 1 ensures CheckBox(anonlabels, boxes[1..][i], docname).Pass? {
          assert boxes[1..][i] == boxes[i + 1];
        }
      }
      AssignTitlesLabels(next, anonlabels, boxes[1..], docname, k - 1);
      AssignTitlesKeepsTitled(next, anonlabels, boxes[1..], docname, box.names[0]);
      var result := AssignTitles(labels, anonlabels, boxes, docname).0;
      assert result == AssignTitles(next, anonlabels, boxes[1..], docname).0;
      forall i | 1 <= i < k
        ensures boxes[i].names[0] in result
        ensures result[boxes[i].names[0]] == Label(docname, boxes[i].ids[0], Title)
      {
        assert boxes[1..][i - 1] == boxes[i];
      }
    }
  }

  /** `assign_reference_title`: walks the boxes of the document in order, checking each
      and writing its titled label; the first failed check ends the walk. */
  method AssignReferenceTitle(domain: StandardDomain, boxes: seq<BoxAttributes>, docname: string)
    returns (outcome: Outcome<LabelError>)
    modifies domain`labels
    ensures (domain.labels, outcome) == AssignTitles(old(domain.labels), domain.anonlabels, boxes, docname)
  {
    var i := 0;
    while i < |boxes|
      invariant i <= |boxes|
      invariant AssignTitles(domain.labels, domain.anonlabels, boxes[i..], docname) ==
                AssignTitles(old(domain.labels), domain.anonlabels, boxes, docname)
    {
      var box := boxes[i];
      assert boxes[i..][0] == box && boxes[i..][1..] == boxes[i + 1..];
      if box.names == [] {
        return Fail(NoName);
      }
      if |box.names| != 1 {
        return Fail(SeveralNames);
      }
      var name := box.names[0];
      if !StartsWith(name, Namespace) {
        return Fail(NameOutsideNamespace(name));
      }
      if |box.ids| != 1 {
        return Fail(NotOneId(name));
      }
      var id := box.ids[0];
      if name !in domain.anonlabels {
        return Fail(NoAnonymousLabel(name));
      }
      if domain.anonlabels[name] != AnonLabel(docname, id) {
        return Fail(AnonymousLabelElsewhere(name, domain.anonlabels[name]));
      }
      domain.labels := domain.labels[name := Label(docname, id, Title)];
      i := i + 1;
    }
    return Pass;
  }
}
