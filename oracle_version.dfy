/**
 * `OracleVersion`: the four numeric components of an Oracle release and the
 * banner text they were read from, ordered component by component.
 */
module OracleVersions {
  import opened JavaStrings

  /** The constructor stores its five arguments unchanged. */
  datatype OracleVersion = OracleVersion(major: int32, minor: int32, version: int32, patch: int32, banner: string)

  /**
   * `isGreaterThanOrEqualTo(major, minor, version, patch)`: the chain of
   * four comparisons, the first one that holds deciding.
   */
  function IsGreaterThanOrEqualTo(v: OracleVersion, major: int32, minor: int32, version: int32, patch: int32): (r: bool)
    ensures r <==> LexGe(Components(v), [major, minor, version, patch])
  {
    LexGeFour(Components(v), [major, minor, version, patch]);
    if v.major > major then true
    else if v.major == major && v.minor > minor then true
    else if v.major == major && v.minor == minor && v.version > version then true
    else if v.major == major && v.minor == minor && v.version == version && v.patch >= patch then true
    else false
  }

  function Components(v: OracleVersion): seq<int> {
    [v.major, v.minor, v.version, v.patch]
  }

  /**
   * Lexicographic order on equally long sequences: the first differing
   * position decides, and equal sequences compare greater-or-equal.
   */
  predicate LexGe(a: seq<int>, b: seq<int>)
    requires |a| == |b|
  {
    |a| == 0 || a[0] > b[0] || (a[0] == b[0] && LexGe(a[1..], b[1..]))
  }

  /** Lexicographic order on four components, written out. */
  lemma LexGeFour(a: seq<int>, b: seq<int>)
    requires |a| == |b| == 4
    ensures LexGe(a, b) <==>
              (a[0] > b[0] || (a[0] == b[0] && (a[1] > b[1] || (a[1] == b[1]
                && (a[2] > b[2] || (a[2] == b[2] && a[3] >= b[3]))))))
  {
    var a1, b1 := a[1..], b[1..];
    var a2, b2 := a1[1..], b1[1..];
    var a3, b3 := a2[1..], b2[1..];
    assert LexGe(a3[1..], b3[1..]);
    assert LexGe(a3, b3) <==> a[3] >= b[3];
    assert LexGe(a2, b2) <==> a[2] > b[2] || (a[2] == b[2] && LexGe(a3, b3));
    assert LexGe(a1, b1) <==> a[1] > b[1] || (a[1] == b[1] && LexGe(a2, b2));
  }

  /** Every version is at least its own components. */
  lemma Reflexive(v: OracleVersion)
    ensures IsGreaterThanOrEqualTo(v, v.major, v.minor, v.version, v.patch)
  {
  }

  /** The major component alone decides whenever the majors differ. */
  lemma MajorDecides(v: OracleVersion, major: int32, minor: int32, version: int32, patch: int32)
    requires v.major != major
    ensures IsGreaterThanOrEqualTo(v, major, minor, version, patch) <==> v.major > major
  {
  }

  /** Of any two versions, at least one is greater than or equal to the other. */
  lemma Total(v: OracleVersion, w: OracleVersion)
    ensures IsGreaterThanOrEqualTo(v, w.major, w.minor, w.version, w.patch)
         || IsGreaterThanOrEqualTo(w, v.major, v.minor, v.version, v.patch)
  {
    LexGeTotal(Components(v), Components(w));
  }

  /** Versions that are each greater than or equal to the other have equal components. */
  lemma Antisymmetric(v: OracleVersion, w: OracleVersion)
    requires IsGreaterThanOrEqualTo(v, w.major, w.minor, w.version, w.patch)
    requires IsGreaterThanOrEqualTo(w, v.major, v.minor, v.version, v.patch)
    ensures Components(v) == Components(w)
  {
    LexGeAntisymmetric(Components(v), Components(w));
  }

  /** The comparison is transitive. */
  lemma Transitive(u: OracleVersion, v: OracleVersion, w: OracleVersion)
    requires IsGreaterThanOrEqualTo(u, v.major, v.minor, v.version, v.patch)
    requires IsGreaterThanOrEqualTo(v, w.major, w.minor, w.version, w.patch)
    ensures IsGreaterThanOrEqualTo(u, w.major, w.minor, w.version, w.patch)
  {
    LexGeTransitive(Components(u), Components(v), Components(w));
  }

  lemma {:induction false} LexGeTotal(a: seq<int>, b: seq<int>)
    requires |a| == |b|
    ensures LexGe(a, b) || LexGe(b, a)
  {
    if |a| > 0 && a[0] == b[0] {
      LexGeTotal(a[1..], b[1..]);
    }
  }

  lemma {:induction false} LexGeAntisymmetric(a: seq<int>, b: seq<int>)
    requires |a| == |b| && LexGe(a, b) && LexGe(b, a)
    ensures a == b
  {
    if |a| > 0 {
      LexGeAntisymmetric(a[1..], b[1..]);
      assert a == [a[0]] + a[1..] && b == [b[0]] + b[1..];
    }
  }

  lemma {:induction false} LexGeTransitive(a: seq<int>, b: seq<int>, c: seq<int>)
    requires |a| == |b| == |c| && LexGe(a, b) && LexGe(b, c)
    ensures LexGe(a, c)
  {
    if |a| > 0 && a[0] == b[0] == c[0] {
      LexGeTransitive(a[1..], b[1..], c[1..]);
    }
  }
}
