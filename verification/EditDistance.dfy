// The two-row Levenshtein distance of quality.py, against edit scripts.
module EditDistance {
  import opened Wrappers

  const MAX_EVALUATION_CODEPOINTS: nat := 20_000

  datatype ScoringError = InputExceedsBound

  // One step of an edit script that reads its source from left to right.
  datatype Edit = Insert(c: char) | Delete | Replace(c: char)

  // The text a script makes of the source, or None when the script does not
  // fit: it must consume the whole source. The last edit acts on the last
  // character of the source, the edits before it on what precedes.
  function Run(script: seq<Edit>, source: string): Option<string> {
    if script == [] then
      if source == [] then Some([]) else None
    else
      var edits := script[..|script| - 1];
      match script[|script| - 1]
      case Insert(c) =>
        (match Run(edits, source) case None => None case Some(text) => Some(text + [c]))
      case Delete =>
        if source == [] then None else Run(edits, source[..|source| - 1])
      case Replace(c) =>
        if source == [] then None
        else match Run(edits, source[..|source| - 1]) case None => None case Some(text) => Some(text + [c])
  }

  // What a fitting script costs: replacing a character by itself is free.
  function Cost(script: seq<Edit>, source: string): nat
    requires Run(script, source).Some?
  {
    if script == [] then 0
    else
      var edits := script[..|script| - 1];
      match script[|script| - 1]
      case Insert(_) => Cost(edits, source) + 1
      case Delete => Cost(edits, source[..|source| - 1]) + 1
      case Replace(c) =>
        Cost(edits, source[..|source| - 1]) + (if source[|source| - 1] != c then 1 else 0)
  }

  ghost predicate Rewrites(script: seq<Edit>, left: string, right: string) {
    Run(script, left) == Some(right)
  }

  function Min3(x: nat, y: nat, z: nat): nat {
    if x <= y && x <= z then x else if y <= z then y else z
  }

  // The recurrence the rows tabulate, on prefixes.
  function Distance(left: string, right: string): nat
    decreases |left| + |right|
  {
    if left == [] then |right|
    else if right == [] then |left|
    else
      var l, r := left[..|left| - 1], right[..|right| - 1];
      Min3(Distance(left, r) + 1,
           Distance(l, right) + 1,
           Distance(l, r) + if left[|left| - 1] != right[|right| - 1] then 1 else 0)
  }

  // No script is cheaper than the distance.
  lemma {:induction false} NoScriptIsCheaper(script: seq<Edit>, left: string, right: string)
    requires Rewrites(script, left, right)
    ensures Cost(script, left) >= Distance(left, right)
    decreases |script|
  {
    if script != [] {
      var edits := script[..|script| - 1];
      match script[|script| - 1]
      case Insert(c) =>
        assert right[..|right| - 1] == Run(edits, left).value;
        NoScriptIsCheaper(edits, left, right[..|right| - 1]);
      case Delete =>
        NoScriptIsCheaper(edits, left[..|left| - 1], right);
      case Replace(c) =>
        assert right[..|right| - 1] == Run(edits, left[..|left| - 1]).value;
        NoScriptIsCheaper(edits, left[..|left| - 1], right[..|right| - 1]);
    }
  }

  // Some script costs exactly the distance.
  lemma {:induction false} SomeScriptAttains(left: string, right: string) returns (script: seq<Edit>)
    ensures Rewrites(script, left, right)
    ensures Cost(script, left) == Distance(left, right)
    decreases |left| + |right|
  {
    if left == [] && right == [] {
      script := [];
    } else {
      var edit: Edit;
      if left == [] || (right != [] && Distance(left, right) == Distance(left, right[..|right| - 1]) + 1) {
        script := SomeScriptAttains(left, right[..|right| - 1]);
        edit := Insert(right[|right| - 1]);
      } else if right == [] || Distance(left, right) == Distance(left[..|left| - 1], right) + 1 {
        script := SomeScriptAttains(left[..|left| - 1], right);
        edit := Delete;
      } else {
        script := SomeScriptAttains(left[..|left| - 1], right[..|right| - 1]);
        edit := Replace(right[|right| - 1]);
      }
      assert (script + [edit])[..|script|] == script;
      assert right != [] ==> right[..|right| - 1] + [right[|right| - 1]] == right;
      script := script + [edit];
    }
  }

  lemma {:induction false} DistanceBounds(left: string, right: string)
    ensures |left| - |right| <= Distance(left, right)
    ensures |right| - |left| <= Distance(left, right)
    ensures Distance(left, right) <= if |left| < |right| then |right| else |left|
    decreases |left| + |right|
  {
    if left != [] && right != [] {
      DistanceBounds(left, right[..|right| - 1]);
      DistanceBounds(left[..|left| - 1], right);
      DistanceBounds(left[..|left| - 1], right[..|right| - 1]);
    }
  }

  lemma {:induction false} DistanceSymmetric(left: string, right: string)
    ensures Distance(left, right) == Distance(right, left)
    decreases |left| + |right|
  {
    if left != [] && right != [] {
      DistanceSymmetric(left, right[..|right| - 1]);
      DistanceSymmetric(left[..|left| - 1], right);
      DistanceSymmetric(left[..|left| - 1], right[..|right| - 1]);
    }
  }

  lemma {:induction false} DistanceZeroIffEqual(left: string, right: string)
    ensures Distance(left, right) == 0 <==> left == right
    decreases |left| + |right|
  {
    if left != [] && right != [] {
      var l, r := left[..|left| - 1], right[..|right| - 1];
      DistanceZeroIffEqual(l, r);
      assert left == l + [left[|left| - 1]] && right == r + [right[|right| - 1]];
    }
  }

  lemma {:induction false} TriangleInequality(a: string, b: string, c: string)
    ensures Distance(a, c) <= Distance(a, b) + Distance(b, c)
    decreases |a| + |b| + |c|
  {
    if a == [] || b == [] || c == [] {
      DistanceBounds(a, b);
      DistanceBounds(b, c);
      DistanceBounds(a, c);
    } else {
      var a', b', c' := a[..|a| - 1], b[..|b| - 1], c[..|c| - 1];
      TriangleInequality(a', b, c);
      TriangleInequality(a, b, c');
      TriangleInequality(a, b', c);
      TriangleInequality(a, b', c');
      TriangleInequality(a', b', c);
      TriangleInequality(a', b', c');
    }
  }

  // row[j] is the distance from left to the first j characters of right.
  ghost predicate IsRow(row: seq<nat>, left: string, right: string) {
    && 1 <= |row| <= |right| + 1
    && forall j :: 0 <= j < |row| ==> row[j] == Distance(left, right[..j])
  }

  function NextCell(current: seq<nat>, previous: seq<nat>, left: char, right: char): nat
    requires 1 <= |current| < |previous|
  {
    var j := |current|;
    Min3(current[j - 1] + 1, previous[j] + 1, previous[j - 1] + if left != right then 1 else 0)
  }

  lemma FirstRow(right: string)
    ensures IsRow(seq(|right| + 1, j => j), [], right)
  {
  }

  // One cell of the table follows from its three neighbours.
  lemma RowExtends(current: seq<nat>, previous: seq<nat>, left: string, i: nat, right: string)
    requires 1 <= i <= |left| && |current| <= |right|
    requires IsRow(previous, left[..i - 1], right) && |previous| == |right| + 1
    requires IsRow(current, left[..i], right)
    ensures IsRow(current + [NextCell(current, previous, left[i - 1], right[|current| - 1])], left[..i], right)
  {
    var j := |current|;
    assert left[..i][..i - 1] == left[..i - 1];
    assert right[..j][..j - 1] == right[..j - 1];
    assert current[j - 1] == Distance(left[..i], right[..j - 1]);
    assert previous[j] == Distance(left[..i - 1], right[..j]);
    assert previous[j - 1] == Distance(left[..i - 1], right[..j - 1]);
  }

  // The swapped two-row loop computes the distance of its arguments.
  method LevenshteinDistance(left: string, right: string) returns (r: Result<nat, ScoringError>)
    ensures r == if |left| > 20_000 || |right| > 20_000
                 then Err(InputExceedsBound) else Ok(Distance(left, right))
  {
    if |left| > MAX_EVALUATION_CODEPOINTS || |right| > MAX_EVALUATION_CODEPOINTS {
      return Err(InputExceedsBound);
    }
    var longer, shorter := left, right;
    if |left| < |right| {
      longer, shorter := right, left;
      DistanceSymmetric(left, right);
    }
    FirstRow(shorter);
    var previous: seq<nat> := seq(|shorter| + 1, j => j);
    var i := 0;
    while i < |longer|
      invariant 0 <= i <= |longer|
      invariant |previous| == |shorter| + 1
      invariant IsRow(previous, longer[..i], shorter)
    {
      i := i + 1;
      var current: seq<nat> := [i];
      while |current| <= |shorter|
        invariant 1 <= |current| <= |shorter| + 1
        invariant IsRow(current, longer[..i], shorter)
        decreases |shorter| - |current|
      {
        RowExtends(current, previous, longer, i, shorter);
        current := current + [NextCell(current, previous, longer[i - 1], shorter[|current| - 1])];
      }
      previous := current;
    }
    assert longer[..i] == longer && shorter[..|shorter|] == shorter;
    return Ok(previous[|previous| - 1]);
  }
}
