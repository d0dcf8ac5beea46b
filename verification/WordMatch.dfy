/**
 * The whole-word scanner behind impact analysis: it skips a full name length
 * after each failed hit, and is exact for precisely the names that cannot hide
 * a whole word inside their own overlap.
 */
module WordMatch {
  import opened Domain
  import opened Sequences
  import opened Text

  type Line = seq<Byte>

  predicate IsIdent(b: Byte) {
    || '0' as int <= b <= '9' as int || 'A' as int <= b <= 'Z' as int || 'a' as int <= b <= 'z' as int
    || b == '_' as int
  }

  /** No identifier byte touches the stretch of `n` bytes at `i`. */
  predicate Bounded(line: Line, i: nat, n: nat)
    requires i + n <= |line|
  {
    && (i == 0 || !IsIdent(line[i - 1]))
    && (i + n >= |line| || !IsIdent(line[i + n]))
  }

  predicate WholeWordAt(line: Line, name: Line, i: int) {
    OccursAt(line, name, i) && Bounded(line, i, |name|)
  }

  /** The name occurs somewhere with no identifier byte on either side. */
  ghost predicate HasWord(line: Line, name: Line) {
    exists i :: WholeWordAt(line, name, i)
  }

  /** `line[from..].find(name)`, as an index into `line`. */
  function Find(line: Line, name: Line, from: nat): (r: Option<nat>)
    ensures r.Some? ==> from <= r.value && OccursAt(line, name, r.value)
    ensures forall i :: from <= i && OccursAt(line, name, i) ==> r.Some? && r.value <= i
    decreases |line| - from
  {
    if from + |name| > |line| then None
    else if OccursAt(line, name, from) then Some(from)
    else Find(line, name, from + 1)
  }

  /** What the scanner answers from `from` on. */
  function Scan(line: Line, name: Line, from: nat): bool
    requires name != []
    decreases |line| - from
  {
    var hit := Find(line, name, from);
    hit.Some? && (WholeWordAt(line, name, hit.value) || Scan(line, name, hit.value + |name|))
  }

  lemma ScanFrom(line: Line, name: Line, from: nat, i: nat)
    requires name != [] && Find(line, name, from) == Some(i)
    ensures Scan(line, name, from) <==> WholeWordAt(line, name, i) || Scan(line, name, i + |name|)
  {
  }

  /** `word_matches`: the guard in `references` never lets an empty name through. */
  method WordMatches(line: Line, name: Line) returns (found: bool)
    requires name != []
    ensures found == Scan(line, name, 0)
    ensures found ==> HasWord(line, name)
    ensures SafeName(name) ==> (found <==> HasWord(line, name))
  {
    var from := 0;
    while true
      invariant Scan(line, name, 0) == Scan(line, name, from)
      decreases |line| - from
    {
      var hit := Find(line, name, from);
      if hit.None? {
        AnswersRight(line, name);
        return false;
      }
      var i := hit.value;
      ScanFrom(line, name, from, i);
      if Bounded(line, i, |name|) {
        AnswersRight(line, name);
        return true;
      }
      from := i + |name|;
    }
  }

  lemma {:induction false} AnswersRight(line: Line, name: Line)
    requires name != []
    ensures Scan(line, name, 0) ==> HasWord(line, name)
    ensures SafeName(name) ==> (Scan(line, name, 0) <==> HasWord(line, name))
  {
    if Scan(line, name, 0) {
      ScanSound(line, name, 0);
    }
    if SafeName(name) {
      ScanExactForSafeNames(name);
    }
  }

  /** No occurrence starting inside another could be a whole word: a border is preceded by an identifier byte. */
  ghost predicate SafeName(name: Line) {
    forall d :: 1 <= d < |name| && name[d..] == name[..|name| - d] ==> IsIdent(name[d - 1])
  }

  lemma {:induction false} ScanSound(line: Line, name: Line, from: nat)
    requires name != [] && Scan(line, name, from)
    ensures HasWord(line, name)
    decreases |line| - from
  {
    var i := Find(line, name, from).value;
    if !WholeWordAt(line, name, i) {
      ScanSound(line, name, i + |name|);
    }
  }

  /** Two overlapping occurrences make a border of the name. */
  lemma OverlapIsBorder(line: Line, name: Line, i: nat, j: nat)
    requires OccursAt(line, name, i) && OccursAt(line, name, j) && i < j < i + |name|
    ensures name[j - i..] == name[..|name| - (j - i)]
    ensures line[j - 1] == name[j - i - 1]
  {
  }

  lemma {:induction false} ScanComplete(line: Line, name: Line, from: nat, j: nat)
    requires name != [] && SafeName(name) && WholeWordAt(line, name, j) && from <= j
    ensures Scan(line, name, from)
    decreases |line| - from
  {
    var i := Find(line, name, from).value;
    if i == j || WholeWordAt(line, name, i) {
    } else if i + |name| <= j {
      ScanComplete(line, name, i + |name|, j);
    } else {
      OverlapIsBorder(line, name, i, j);
    }
  }

  /** A line that hides a whole word: an identifier byte, the border's shift, then the name. */
  function Hiding(name: Line, d: nat): Line
    requires 1 <= d < |name|
  {
    var x: Byte := if name[0] == 'a' as int then 'b' as int else 'a' as int;
    [x] + name[..d] + name
  }

  /** The name stands twice in the hiding line, one occurrence overlapping the other. */
  lemma HidingOccurrences(name: Line, d: nat)
    requires 1 <= d < |name| && name[d..] == name[..|name| - d]
    ensures var line := Hiding(name, d);
      && OccursAt(line, name, 1) && OccursAt(line, name, 1 + d) && !OccursAt(line, name, 0)
      && line[d] == name[d - 1] && IsIdent(line[0])
  {
  }

  lemma {:induction false} HidingWord(name: Line, d: nat)
    requires 1 <= d < |name| && name[d..] == name[..|name| - d] && !IsIdent(name[d - 1])
    ensures HasWord(Hiding(name, d), name) && !Scan(Hiding(name, d), name, 0)
  {
    var line, n := Hiding(name, d), |name|;
    assert |line| == 1 + d + n;
    HidingOccurrences(name, d);
    assert WholeWordAt(line, name, 1 + d);
    ScanMisses(line, name, d);
  }

  lemma {:induction false} ScanMisses(line: Line, name: Line, d: nat)
    requires 1 <= d < |name| && |line| == 1 + d + |name|
    requires OccursAt(line, name, 1) && !OccursAt(line, name, 0) && IsIdent(line[0])
    ensures !Scan(line, name, 0)
  {
    assert Find(line, name, 0) == Some(1);
    assert Find(line, name, 1 + |name|) == None;
  }

  /**
   * The scanner answers "is there a whole-word occurrence" on every line exactly
   * for the safe names.
   */
  lemma {:induction false} ScanExactForSafeNames(name: Line)
    requires name != []
    ensures (forall line :: Scan(line, name, 0) <==> HasWord(line, name)) <==> SafeName(name)
  {
    if SafeName(name) {
      forall line ensures Scan(line, name, 0) <==> HasWord(line, name) {
        if Scan(line, name, 0) {
          ScanSound(line, name, 0);
        }
        if HasWord(line, name) {
          var j :| WholeWordAt(line, name, j);
          ScanComplete(line, name, 0, j);
        }
      }
    } else {
      var d :| 1 <= d < |name| && name[d..] == name[..|name| - d] && !IsIdent(name[d - 1]);
      HidingWord(name, d);
    }
  }

  /** In particular for every identifier, which is what the scanner is for. */
  lemma {:induction false} IdentifiersAreExact(line: Line, name: Line)
    requires name != [] && forall i :: 0 <= i < |name| ==> IsIdent(name[i])
    ensures Scan(line, name, 0) <==> HasWord(line, name)
  {
    assert SafeName(name);
    ScanExactForSafeNames(name);
  }
}
