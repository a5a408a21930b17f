/** Interning over whole runs of requests: an injective, stable numbering of identities. */
module Interning {
  import opened Common
  import opened Frames
  import opened Probing

  /** Interns requests one after the other; also their answers. */
  ghost function InternAll(names: Names, capacity: nat, arena: nat, requests: seq<Identity>): (Names, seq<Option<nat>>)
    decreases |requests|
  {
    if requests == [] then (names, [])
    else
      var (before, answers) := InternAll(names, capacity, arena, requests[..|requests| - 1]);
      var (after, answer) := Interned(before, capacity, arena, requests[|requests| - 1]);
      (after, answers + [answer])
  }

  /** Every answer names its identity, and keeps naming it to the end of the run. */
  lemma {:induction false} AnswersName(names: Names, capacity: nat, arena: nat, requests: seq<Identity>)
    requires Distinct(names.ids, 0)
    ensures var (after, answers) := InternAll(names, capacity, arena, requests);
      && NamesGrow(names, after) && |answers| == |requests|
      && forall k :: 0 <= k < |requests| && answers[k].Some? ==>
           answers[k].value < |after.ids| && after.ids[answers[k].value] == Cut(requests[k])
    decreases |requests|
  {
    hide Interned;
    if requests != [] {
      var last := |requests| - 1;
      AnswersName(names, capacity, arena, requests[..last]);
      var (before, answers) := InternAll(names, capacity, arena, requests[..last]);
      InternedMeans(before, capacity, arena, requests[last]);
      assert forall k :: 0 <= k < last ==> requests[..last][k] == requests[k];
    }
  }

  /** Two answered requests get the same id exactly when their identities, cut to 320 bytes, are equal. */
  lemma SameIdIffSameIdentity(names: Names, capacity: nat, arena: nat, requests: seq<Identity>, i: nat, j: nat)
    requires Distinct(names.ids, 0) && i < |requests| && j < |requests|
    ensures var answers := InternAll(names, capacity, arena, requests).1;
      && |answers| == |requests|
      && (answers[i].Some? && answers[j].Some? ==> (answers[i] == answers[j] <==> Cut(requests[i]) == Cut(requests[j])))
  {
    AnswersName(names, capacity, arena, requests);
  }

  /** Once an identity has an id, asking again changes nothing and gives that id, even when table or arena is full. */
  lemma KnownStaysKnown(names: Names, capacity: nat, arena: nat, requests: seq<Identity>, i: nat, again: Identity)
    requires Distinct(names.ids, 0) && i < |requests| && Cut(again) == Cut(requests[i])
    ensures var (after, answers) := InternAll(names, capacity, arena, requests);
      && |answers| == |requests|
      && (answers[i].Some? && again.name != [] ==>
            forall capacity', arena' :: Interned(after, capacity', arena', again) == (after, answers[i]))
  {
    AnswersName(names, capacity, arena, requests);
    var (after, answers) := InternAll(names, capacity, arena, requests);
    if answers[i].Some? {
      assert after.ids[answers[i].value] in after.ids;
    }
  }
}
