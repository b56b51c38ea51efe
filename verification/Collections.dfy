/** Small notions about sequences that several modules share. */
module Collections {

  function Least(a: nat, b: nat): nat {
    if a < b then a else b
  }

  function Reversed<T>(s: seq<T>): (r: seq<T>)
    ensures |r| == |s| && forall i :: 0 <= i < |s| ==> r[i] == s[|s| - 1 - i]
  {
    seq(|s|, i requires 0 <= i < |s| => s[|s| - 1 - i])
  }

  function Members<T>(s: seq<T>): set<T> {
    set x | x in s
  }

  ghost predicate Distinct<T>(s: seq<T>) {
    forall i, j :: 0 <= i < j < |s| ==> s[i] != s[j]
  }

  /** There is always one more text than those at hand. */
  lemma AnotherText(texts: set<string>) returns (t: string)
    ensures t !in texts
  {
    var n := LengthBound(texts);
    t := seq(n + 1, _ => 'n');
  }

  lemma {:induction false} LengthBound(texts: set<string>) returns (n: nat)
    ensures forall t :: t in texts ==> |t| <= n
    decreases texts
  {
    if texts == {} {
      n := 0;
    } else {
      var t :| t in texts;
      var rest := LengthBound(texts - {t});
      n := if |t| > rest then |t| else rest;
    }
  }
}
