/** Cutting, splitting and joining texts at a separator. */
module Text {

  /** Index of the first `c`, or the length. */
  function Find(s: string, c: char): (i: nat)
    ensures i <= |s| && (i < |s| ==> s[i] == c) && forall j | 0 <= j < i :: s[j] != c
  {
    if s == [] || s[0] == c then 0 else 1 + Find(s[1..], c)
  }

  /** `strings.Split`: always at least one part. */
  function Split(s: string, c: char): (parts: seq<string>)
    ensures parts != []
    decreases |s|
  {
    var k := Find(s, c);
    if k == |s| then [s] else [s[..k]] + Split(s[k + 1..], c)
  }

  function Join(parts: seq<string>, c: char): string {
    if parts == [] then []
    else if |parts| == 1 then parts[0]
    else parts[0] + [c] + Join(parts[1..], c)
  }

  lemma {:induction false} JoinSplit(s: string, c: char)
    ensures Join(Split(s, c), c) == s
    ensures forall i | 0 <= i < |Split(s, c)| :: c !in Split(s, c)[i]
    decreases |s|
  {
    var k := Find(s, c);
    if k < |s| {
      JoinSplit(s[k + 1..], c);
      assert s == s[..k] + [c] + s[k + 1..];
      assert Split(s, c)[1..] == Split(s[k + 1..], c);
    }
  }

  lemma {:induction false} FindAfter(head: string, tail: string, c: char)
    requires c !in head
    ensures Find(head + [c] + tail, c) == |head|
  {
    var s := head + [c] + tail;
    assert s[|head|] == c;
    assert forall j | 0 <= j < |head| :: s[j] == head[j];
  }

  lemma {:induction false} SplitJoin(parts: seq<string>, c: char)
    requires parts != [] && forall i | 0 <= i < |parts| :: c !in parts[i]
    ensures Split(Join(parts, c), c) == parts
  {
    var head := parts[0];
    if |parts| == 1 {
      assert Find(head, c) == |head|;
    } else {
      var tail := Join(parts[1..], c);
      FindAfter(head, tail, c);
      SplitJoin(parts[1..], c);
      var s := head + [c] + tail;
      assert s[..|head|] == head && s[|head| + 1..] == tail;
      assert parts == [head] + parts[1..];
    }
  }
}
