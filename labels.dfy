/**
 * Frame labels and scenes of a timeline, and the lookups over them.
 */
module Labels {

  import opened Wrappers

  /** A `FrameLabel`: a name attached to a frame number. */
  datatype FrameLabel = FrameLabel(name: string, frame: int)

  /** A `Scene`: a name and the frame offset at which the scene starts. */
  datatype Scene = Scene(name: string, offset: int)

  predicate IsUpper(c: char) {
    'A' <= c <= 'Z'
  }

  /** `toLowerCase` restricted to the ASCII letters. */
  function LowerChar(c: char): (r: char)
    ensures !IsUpper(r)
    ensures !IsUpper(c) ==> r == c
    ensures IsUpper(c) ==> 'a' <= r <= 'z' && r as int - 'a' as int == c as int - 'A' as int
  {
    if IsUpper(c) then (c as int + 32) as char else c
  }

  function Lower(s: string): (r: string)
    ensures |r| == |s|
    ensures forall i :: 0 <= i < |s| ==> r[i] == LowerChar(s[i])
  {
    seq(|s|, i requires 0 <= i < |s| => LowerChar(s[i]))
  }

  predicate HasUpper(s: string) {
    exists i :: 0 <= i < |s| && IsUpper(s[i])
  }

  /** Lower-casing is idempotent, so a query that is already lower case is looked up as given. */
  lemma LowerIdempotent(s: string)
    ensures Lower(Lower(s)) == Lower(s)
  {
  }

  /** No lower-cased query equals a name that holds an upper-case letter. */
  lemma LowerNeverMatchesUpper(q: string, name: string)
    requires HasUpper(name)
    ensures Lower(q) != name
  {
    var i :| 0 <= i < |name| && IsUpper(name[i]);
    if |q| == |name| {
      assert !IsUpper(Lower(q)[i]);
    }
  }

  /** The first label whose name is exactly `name`. */
  function LabelNamed(labels: seq<FrameLabel>, name: string): (r: Option<FrameLabel>)
    ensures r.None? <==> forall i :: 0 <= i < |labels| ==> labels[i].name != name
    ensures r.Some? ==> exists i :: 0 <= i < |labels| && labels[i] == r.value && labels[i].name == name
                                    && forall j :: 0 <= j < i ==> labels[j].name != name
  {
    if labels == [] then None
    else if labels[0].name == name then Some(labels[0])
    else
      var r := LabelNamed(labels[1..], name);
      assert forall i :: 1 <= i < |labels| ==> labels[i] == labels[1..][i - 1];
      r
  }

  /**
   * The first scene whose name is exactly `name`. It has the same shape as
   * `LabelNamed` but is kept as its own search: `_$getScene` runs a separate
   * loop over scenes and, unlike the label query, does not lower-case `name`.
   */
  function SceneNamed(scenes: seq<Scene>, name: string): (r: Option<Scene>)
    ensures r.None? <==> forall i :: 0 <= i < |scenes| ==> scenes[i].name != name
    ensures r.Some? ==> exists i :: 0 <= i < |scenes| && scenes[i] == r.value && scenes[i].name == name
                                    && forall j :: 0 <= j < i ==> scenes[j].name != name
  {
    if scenes == [] then None
    else if scenes[0].name == name then Some(scenes[0])
    else
      var r := SceneNamed(scenes[1..], name);
      assert forall i :: 1 <= i < |scenes| ==> scenes[i] == scenes[1..][i - 1];
      r
  }

  /** Two characters that are equal, or an ASCII upper-case letter and its lower-case partner. */
  predicate SameLetterUpToCase(x: char, y: char) {
    || x == y
    || ('A' <= x <= 'Z' && y as int == x as int + ('a' as int - 'A' as int))
    || ('A' <= y <= 'Z' && x as int == y as int + ('a' as int - 'A' as int))
  }

  /** Two queries that differ only in the case of ASCII letters. */
  predicate SameUpToCase(q1: string, q2: string) {
    |q1| == |q2| && forall i :: 0 <= i < |q1| ==> SameLetterUpToCase(q1[i], q2[i])
  }

  /** Queries that differ only in letter case are looked up as the same name, so they find the same label. */
  lemma SameUpToCaseSameLabel(labels: seq<FrameLabel>, q1: string, q2: string)
    requires SameUpToCase(q1, q2)
    ensures Lower(q1) == Lower(q2)
    ensures LabelNamed(labels, Lower(q1)) == LabelNamed(labels, Lower(q2))
  {
    forall i | 0 <= i < |q1|
      ensures Lower(q1)[i] == Lower(q2)[i]
    {
      assert SameLetterUpToCase(q1[i], q2[i]);
    }
  }

  /** A label stored with an upper-case letter is never what a lower-cased query finds. */
  lemma UpperCaseLabelNeverFound(labels: seq<FrameLabel>, q: string)
    ensures var r := LabelNamed(labels, Lower(q)); r.Some? ==> !HasUpper(r.value.name)
  {
    var r := LabelNamed(labels, Lower(q));
    if r.Some? && HasUpper(r.value.name) {
      LowerNeverMatchesUpper(q, r.value.name);
    }
  }
}
