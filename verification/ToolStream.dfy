/**
The assembly of tool calls from a streamed answer (src/agent_vm.py, `chat`): every fragment
names the call it belongs to by an index; a fragment whose index is not there yet opens one
more call.
*/
module ToolStreams {
  import opened Wrappers

  /** A piece of a tool call; a missing name or missing arguments are the empty text. */
  datatype Fragment = Fragment(index: int, id: Option<string>, name: string, arguments: string)

  datatype Call = Call(id: Option<string>, name: string, arguments: string)

  /** Python's meaning of a list index. */
  function Position(length: nat, index: int): Option<nat> {
    if 0 <= index < length then Some(index)
    else if index < 0 <= length + index then Some(length + index)
    else None
  }

  function Opened(calls: seq<Call>, f: Fragment): seq<Call> {
    if |calls| <= f.index then calls + [Call(f.id, "", "")] else calls
  }

  /** One fragment; None is an IndexError, raised only if there is text to add. */
  function AddFragment(calls: seq<Call>, f: Fragment): Option<seq<Call>> {
    var slots := Opened(calls, f);
    if f.name == "" && f.arguments == "" then Some(slots)
    else
      match Position(|slots|, f.index)
      case None => None
      case Some(i) => Some(slots[i := slots[i].(
          name := slots[i].name + f.name, arguments := slots[i].arguments + f.arguments)])
  }

  function AddFragments(calls: seq<Call>, fs: seq<Fragment>): Option<seq<Call>> {
    if fs == [] then Some(calls)
    else
      match AddFragments(calls, fs[..|fs| - 1])
      case None => None
      case Some(front) => AddFragment(front, fs[|fs| - 1])
  }

  // What the fragments mean.

  /** How many calls the fragments name, if each new index is the next one. */
  function Named(fs: seq<Fragment>): nat {
    if fs == [] then 0
    else
      var front, last := Named(fs[..|fs| - 1]), fs[|fs| - 1];
      if last.index == front then front + 1 else front
  }

  predicate HasText(f: Fragment) {
    f.name != "" || f.arguments != ""
  }

  /** The next new index or one already named; a negative index does no harm without text. */
  predicate Fits(f: Fragment, named: nat) {
    0 <= f.index <= named || (f.index < 0 && !HasText(f))
  }

  /** New indices arrive consecutively; fragments of calls already named may come in any order. */
  predicate Consecutive(fs: seq<Fragment>) {
    fs == [] ||
    var n := |fs| - 1;
    Consecutive(fs[..n]) && Fits(fs[n], Named(fs[..n]))
  }

  function NameText(fs: seq<Fragment>, i: nat): string {
    if fs == [] then ""
    else
      var front, last := NameText(fs[..|fs| - 1], i), fs[|fs| - 1];
      if last.index == i then front + last.name else front
  }

  function ArgumentText(fs: seq<Fragment>, i: nat): string {
    if fs == [] then ""
    else
      var front, last := ArgumentText(fs[..|fs| - 1], i), fs[|fs| - 1];
      if last.index == i then front + last.arguments else front
  }

  /** The id of the first fragment with an index. */
  function FirstId(fs: seq<Fragment>, i: nat): Option<string> {
    if fs == [] then None
    else if fs[0].index == i then fs[0].id
    else FirstId(fs[1..], i)
  }

  predicate Mentions(fs: seq<Fragment>, i: nat) {
    exists k :: 0 <= k < |fs| && fs[k].index == i
  }

  lemma {:induction false} FirstIdSnoc(fs: seq<Fragment>, f: Fragment, i: nat)
    ensures FirstId(fs + [f], i) == if Mentions(fs, i) then FirstId(fs, i) else if f.index == i then f.id else None
  {
    if fs != [] {
      assert (fs + [f])[1..] == fs[1..] + [f];
      FirstIdSnoc(fs[1..], f, i);
      assert Mentions(fs, i) <==> fs[0].index == i || Mentions(fs[1..], i) by {
        assert forall k :: 0 < k < |fs| ==> fs[k] == fs[1..][k - 1];
        assert forall k :: 0 <= k < |fs| - 1 ==> fs[1..][k] == fs[k + 1];
      }
    }
  }

  lemma {:induction false} MentionsNamed(fs: seq<Fragment>, i: nat)
    requires Consecutive(fs)
    ensures Mentions(fs, i) <==> i < Named(fs)
  {
    if fs != [] {
      var n := |fs| - 1;
      MentionsNamed(fs[..n], i);
      assert Mentions(fs, i) <==> Mentions(fs[..n], i) || fs[n].index == i by {
        assert forall k :: 0 <= k < n ==> fs[..n][k] == fs[k];
      }
    }
  }

  /** The calls say what the fragments mean: first ids, and names and arguments joined in order. */
  predicate Assembled(calls: seq<Call>, fs: seq<Fragment>) {
    && |calls| == Named(fs)
    && forall i :: 0 <= i < |calls| ==> calls[i] == Meant(fs, i)
  }

  /** Every interleaving with consecutive new indices is assembled as it was meant. */
  lemma {:induction false} ConsecutiveIsAssembled(fs: seq<Fragment>)
    requires Consecutive(fs)
    ensures AddFragments([], fs).Some? && Assembled(AddFragments([], fs).value, fs)
  {
    if fs != [] {
      var n := |fs| - 1;
      ConsecutiveIsAssembled(fs[..n]);
      assert fs == fs[..n] + [fs[n]];
      AssembledStep(AddFragments([], fs[..n]).value, fs[..n], fs[n]);
    }
  }

  /** At every moment of a stream the calls say what the fragments so far mean. */
  ghost predicate AlwaysAssembled(fs: seq<Fragment>) {
    forall n :: 0 <= n <= |fs| ==> AssembledAfter(fs[..n])
  }

  predicate AssembledAfter(fs: seq<Fragment>) {
    AddFragments([], fs).Some? && Assembled(AddFragments([], fs).value, fs)
  }

  /** For every stream whatever: the calls are assembled as meant throughout if and only if new
      indices are consecutive. */
  lemma {:induction false} AssembledExactly(fs: seq<Fragment>)
    ensures AlwaysAssembled(fs) <==> Consecutive(fs)
  {
    if fs == [] {
      assert fs[..0] == [];
      ConsecutiveIsAssembled([]);
      assert forall n :: 0 <= n <= |fs| ==> fs[..n] == [];
    } else {
      var n := |fs| - 1;
      AssembledExactly(fs[..n]);
      AlwaysSnoc(fs);
      assert fs == fs[..n] + [fs[n]];
      if AlwaysAssembled(fs[..n]) {
        assert fs[..n][..n] == fs[..n];
        var calls := AddFragments([], fs[..n]).value;
        if Fits(fs[n], Named(fs[..n])) {
          AssembledStep(calls, fs[..n], fs[n]);
        } else if AddFragment(calls, fs[n]).Some? {
          MisfitSpoils(calls, fs[..n], fs[n]);
        }
      }
    }
  }

  lemma AlwaysSnoc(fs: seq<Fragment>)
    requires fs != []
    ensures AlwaysAssembled(fs) <==> AlwaysAssembled(fs[..|fs| - 1]) && AssembledAfter(fs)
  {
    hide AssembledAfter;
    var n := |fs| - 1;
    assert forall k :: 0 <= k <= n ==> fs[..n][..k] == fs[..k];
    assert fs[..n + 1] == fs;
  }

  function Extended(call: Call, f: Fragment): Call {
    call.(name := call.name + f.name, arguments := call.arguments + f.arguments)
  }

  lemma AddEffect(calls: seq<Call>, f: Fragment)
    requires 0 <= f.index <= |calls|
    ensures AddFragment(calls, f)
         == Some(Opened(calls, f)[f.index := Extended(Opened(calls, f)[f.index], f)])
  {
    if !HasText(f) {
      var slots := Opened(calls, f);
      var call := slots[f.index];
      assert call.name + f.name == call.name && call.arguments + f.arguments == call.arguments;
      assert slots[f.index := call] == slots;
    }
  }

  lemma TextsSnoc(fs: seq<Fragment>, f: Fragment, i: nat)
    requires Consecutive(fs)
    ensures Consecutive(fs + [f]) <==> Fits(f, Named(fs))
    ensures Named(fs + [f]) == if f.index == Named(fs) then Named(fs) + 1 else Named(fs)
    ensures i < Named(fs) ==> FirstId(fs + [f], i) == FirstId(fs, i)
    ensures i == f.index == Named(fs) ==> FirstId(fs + [f], i) == f.id
    ensures i >= Named(fs) ==> NameText(fs, i) == "" && ArgumentText(fs, i) == ""
    ensures NameText(fs + [f], i) == if f.index == i then NameText(fs, i) + f.name else NameText(fs, i)
    ensures ArgumentText(fs + [f], i) == if f.index == i then ArgumentText(fs, i) + f.arguments else ArgumentText(fs, i)
  {
    hide FirstId, Fits;
    assert (fs + [f])[..|fs + [f]| - 1] == fs;
    FirstIdSnoc(fs, f, i);
    MentionsNamed(fs, i);
    NothingNamed(fs, i);
  }

  /** What a call should be after one more fragment. */
  function Meant(fs: seq<Fragment>, i: nat): Call {
    Call(FirstId(fs, i), NameText(fs, i), ArgumentText(fs, i))
  }

  lemma MeantSnoc(fs: seq<Fragment>, f: Fragment, i: nat)
    requires Consecutive(fs)
    ensures i < Named(fs) ==> Meant(fs + [f], i) == if f.index == i then Extended(Meant(fs, i), f) else Meant(fs, i)
    ensures i == f.index == Named(fs) ==> Meant(fs + [f], i) == Extended(Call(f.id, "", ""), f)
  {
    hide Consecutive, Named, FirstId, NameText, ArgumentText, Fits;
    TextsSnoc(fs, f, i);
  }

  lemma AssembledStep(calls: seq<Call>, front: seq<Fragment>, last: Fragment)
    requires Consecutive(front) && Assembled(calls, front) && Fits(last, Named(front))
    ensures AddFragment(calls, last).Some? && Assembled(AddFragment(calls, last).value, front + [last])
  {
    hide Consecutive, Named, Meant, Extended;
    var fs := front + [last];
    TextsSnoc(front, last, 0);
    if last.index < 0 {
      forall i | 0 <= i < |calls|
        ensures calls[i] == Meant(fs, i)
      {
        MeantSnoc(front, last, i);
      }
    } else {
      AddEffect(calls, last);
      var more := Opened(calls, last);
      assert |more| == Named(fs);
      forall i | 0 <= i < |more|
        ensures more[last.index := Extended(more[last.index], last)][i] == Meant(fs, i)
      {
        MeantSnoc(front, last, i);
        assert i < |calls| ==> more[i] == calls[i] == Meant(front, i);
      }
    }
  }

  /** A fragment that does not fit makes the stream fail or spoils the calls. */
  lemma MisfitSpoils(calls: seq<Call>, front: seq<Fragment>, last: Fragment)
    requires Consecutive(front) && Assembled(calls, front) && !Fits(last, Named(front))
    requires AddFragment(calls, last).Some?
    ensures !Assembled(AddFragment(calls, last).value, front + [last])
  {
    hide Consecutive, Named, FirstId, NameText, ArgumentText;
    TextsSnoc(front, last, 0);
    if last.index < 0 {
      var i := |calls| + last.index;
      TextsSnoc(front, last, i);
      assert AddFragment(calls, last).value[i] == Extended(calls[i], last);
      assert |calls[i].name + last.name| + |calls[i].arguments + last.arguments|
        > |calls[i].name| + |calls[i].arguments|;
    }
  }

  /** A call that no fragment mentions has no text yet. */
  lemma {:induction false} NothingNamed(fs: seq<Fragment>, i: nat)
    requires Consecutive(fs)
    ensures i >= Named(fs) ==> NameText(fs, i) == "" && ArgumentText(fs, i) == ""
  {
    if fs != [] {
      NothingNamed(fs[..|fs| - 1], i);
    }
  }

  /** How many slots the fragments open. */
  function Slots(fs: seq<Fragment>): nat {
    if fs == [] then 0
    else
      var front := Slots(fs[..|fs| - 1]);
      if fs[|fs| - 1].index >= front then front + 1 else front
  }

  /** Every fragment with text finds its slot, counting from the end if its index is negative. */
  predicate FindsSlots(fs: seq<Fragment>) {
    fs == [] ||
    var n := |fs| - 1;
    FindsSlots(fs[..n]) && (HasText(fs[n]) ==> -(Slots(fs[..n]) as int) <= fs[n].index <= Slots(fs[..n]))
  }

  /** A stream is accepted exactly when every fragment with text finds its slot; otherwise it raises. */
  lemma {:induction false} AcceptedExactly(fs: seq<Fragment>)
    ensures AddFragments([], fs).Some? <==> FindsSlots(fs)
    ensures AddFragments([], fs).Some? ==> |AddFragments([], fs).value| == Slots(fs)
  {
    if fs != [] {
      AcceptedExactly(fs[..|fs| - 1]);
    }
  }

  /** Indices count from zero, and a fragment that opens a call carries text; later ones may be empty. */
  predicate OpensAloud(fs: seq<Fragment>) {
    fs == [] ||
    var n := |fs| - 1;
    OpensAloud(fs[..n]) && fs[n].index >= 0 && (fs[n].index >= Named(fs[..n]) ==> HasText(fs[n]))
  }

  /** If every call opens with text, accepted streams are exactly the consecutive ones. */
  lemma {:induction false} AcceptedIfConsecutive(fs: seq<Fragment>)
    requires OpensAloud(fs)
    ensures AddFragments([], fs).Some? <==> Consecutive(fs)
  {
    hide AddFragment;
    if fs != [] {
      var n := |fs| - 1;
      AcceptedIfConsecutive(fs[..n]);
      if Consecutive(fs[..n]) {
        ConsecutiveIsAssembled(fs[..n]);
        var calls := AddFragments([], fs[..n]).value;
        assert fs == fs[..n] + [fs[n]];
        if Fits(fs[n], Named(fs[..n])) {
          AssembledStep(calls, fs[..n], fs[n]);
        } else {
          GapRaises(calls, fs[n]);
        }
      }
    }
  }

  lemma GapRaises(calls: seq<Call>, f: Fragment)
    requires f.index > |calls| && HasText(f)
    ensures AddFragment(calls, f).None?
  {
  }

  /** Without text a gap goes unnoticed: the id meant for call 1 ends up on call 0. */
  lemma SilentGapMisplacesId(id: Option<string>, own: Option<string>, name: string)
    requires name != ""
    ensures AddFragments([], [Fragment(1, id, "", ""), Fragment(0, own, name, "")]) == Some([Call(id, name, "")])
  {
    var a, b := Fragment(1, id, "", ""), Fragment(0, own, name, "");
    assert [a, b][..1] == [a] && [a][..0] == [];
    var slots := [Call(id, "", "")];
    assert AddFragments([], []) == Some([]);
    assert AddFragments([], [a]) == AddFragment([], a) == Some([] + slots);
    assert [] + slots == slots;
    assert slots[0].name + b.name == name && slots[0].arguments + b.arguments == "";
    assert slots[0 := Extended(slots[0], b)] == [Call(id, name, "")];
  }
}
