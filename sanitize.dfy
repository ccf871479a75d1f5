/**
 * The local directory name derived from a hub model id
 * (`model_id.replace('/', '_').replace('\\', '_')`): both path separators
 * become underscores, so the model lands in one directory level below the
 * download directory.
 */
module Sanitize {
  import opened PyStr

  predicate IsSeparator(c: char) {
    c == '/' || c == '\\'
  }

  /** What one character of the model id becomes in the directory name. */
  function SafeChar(c: char): char {
    if IsSeparator(c) then '_' else c
  }

  /** The two chained `replace` calls of the source. */
  function SafeName(modelId: string): (r: string)
    ensures |r| == |modelId|
    ensures forall i :: 0 <= i < |r| ==> !IsSeparator(r[i])
    ensures forall i :: 0 <= i < |modelId| && !IsSeparator(modelId[i]) ==> r[i] == modelId[i]
    ensures forall i :: 0 <= i < |modelId| && IsSeparator(modelId[i]) ==> r[i] == '_'
  {
    ReplaceChar(ReplaceChar(modelId, '/', '_'), '\\', '_')
  }

  /** Independent reference: one pass that maps every character through SafeChar. */
  function MapSafeChar(s: string): string {
    if s == [] then [] else [SafeChar(s[0])] + MapSafeChar(s[1..])
  }

  /** The two chained replacements agree with the single character-wise pass. */
  lemma {:induction false} SafeNameIsCharwise(modelId: string)
    ensures SafeName(modelId) == MapSafeChar(modelId)
  {
    if modelId != [] {
      SafeNameIsCharwise(modelId[1..]);
      assert SafeName(modelId) == [SafeChar(modelId[0])] + SafeName(modelId[1..]);
    }
  }

  /** A name that is already safe is left alone. */
  lemma SafeNameFixesSafeNames(name: string)
    requires forall i :: 0 <= i < |name| ==> !IsSeparator(name[i])
    ensures SafeName(name) == name
  {
  }

  /** A sanitised name is already safe, so sanitising twice equals sanitising once. */
  lemma SafeNameIdempotent(modelId: string)
    ensures SafeName(SafeName(modelId)) == SafeName(modelId)
  {
    SafeNameFixesSafeNames(SafeName(modelId));
  }

  /**
   * Two model ids share a download directory exactly when they have the same
   * length and agree everywhere once separators are replaced.
   */
  lemma SameDirectoryIff(a: string, b: string)
    ensures SafeName(a) == SafeName(b) <==>
            |a| == |b| && forall i :: 0 <= i < |a| ==> SafeChar(a[i]) == SafeChar(b[i])
  {
    if |a| == |b| && forall i :: 0 <= i < |a| ==> SafeChar(a[i]) == SafeChar(b[i]) {
      assert forall i :: 0 <= i < |a| ==> SafeName(a)[i] == SafeName(b)[i];
    }
    if SafeName(a) == SafeName(b) {
      assert forall i :: 0 <= i < |a| ==> SafeChar(a[i]) == SafeName(a)[i] == SafeName(b)[i] == SafeChar(b[i]);
    }
  }

  /**
   * The sanitisation is not injective: `org/model` and `org_model` (any
   * separator against an underscore at the same place) share one directory.
   */
  lemma SeparatorCollidesWithUnderscore(namespace: string, name: string, sep: char)
    requires IsSeparator(sep)
    ensures namespace + [sep] + name != namespace + "_" + name
    ensures SafeName(namespace + [sep] + name) == SafeName(namespace + "_" + name)
  {
    var a, b := namespace + [sep] + name, namespace + "_" + name;
    assert a[|namespace|] != b[|namespace|];
    SameDirectoryIff(a, b);
  }
}
