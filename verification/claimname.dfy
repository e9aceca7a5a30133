/** The migration-stable part of a ResourceClaim name. */
module ClaimNames {
  import opened Text

  const PREFIX := "virt-launcher-"

  predicate IsAlphanumeric(s: string) {
    forall i :: 0 <= i < |s| ==> IsAlphanumericChar(s[i])
  }

  /** What the parser takes for a pod hash. */
  predicate IsHash(part: string) {
    |part| == 5 && IsAlphanumeric(part)
  }

  /** The first segment at or after `from` that looks like a pod hash and has a segment
      after it; -1 if there is none. */
  function PodHashIndex(parts: seq<string>, from: nat): (i: int)
    ensures i == -1 || (from <= i && i + 1 < |parts| && IsHash(parts[i]))
    ensures forall k :: from <= k < (if i == -1 then |parts| - 1 else i) ==> !IsHash(parts[k])
    decreases |parts| - from
  {
    if from + 1 >= |parts| then -1
    else if IsHash(parts[from]) then from
    else PodHashIndex(parts, from + 1)
  }

  function StableName(full: string): string {
    if !(PREFIX <= full) then full
    else
      var parts := Split(full[|PREFIX|..], '-');
      if |parts| < 4 then full
      else
        var withoutClaimHash := parts[..|parts| - 1];
        var i := PodHashIndex(withoutClaimHash, 0);
        if i == -1 then full
        else Join(withoutClaimHash[..i], '-') + "-" + Join(withoutClaimHash[i + 1..], '-')
  }

  // ---- the algorithm ----

  method CheckAlphanumeric(s: string) returns (ok: bool)
    ensures ok <==> IsAlphanumeric(s)
  {
    for i := 0 to |s|
      invariant forall k :: 0 <= k < i ==> IsAlphanumericChar(s[k])
    {
      if !(('a' <= s[i] <= 'z') || ('A' <= s[i] <= 'Z') || ('0' <= s[i] <= '9')) {
        return false;
      }
    }
    return true;
  }

  method FindPodHash(parts: seq<string>) returns (podHashIdx: int)
    ensures podHashIdx == PodHashIndex(parts, 0)
  {
    podHashIdx := -1;
    for i := 0 to |parts|
      invariant podHashIdx == -1
      invariant PodHashIndex(parts, 0) == PodHashIndex(parts, i)
    {
      if |parts[i]| == 5 {
        var alphanumeric := CheckAlphanumeric(parts[i]);
        if alphanumeric && i + 1 < |parts| {
          podHashIdx := i;
          break;
        }
      }
    }
  }

  method ExtractStableClaimName(full: string) returns (stable: string)
    ensures stable == StableName(full)
  {
    if !(PREFIX <= full) {
      return full;
    }
    var parts := Split(full[|PREFIX|..], '-');
    if |parts| < 4 {
      return full;
    }
    var withoutClaimHash := parts[..|parts| - 1];
    var podHashIdx := FindPodHash(withoutClaimHash);
    if podHashIdx == -1 {
      return full;
    }
    var vmiName := Join(withoutClaimHash[..podHashIdx], '-');
    var templateName := Join(withoutClaimHash[podHashIdx + 1..], '-');
    return vmiName + "-" + templateName;
  }

  // ---- structure of the result ----

  /** `full` is the prefix followed by at least four dash-free segments, and segment `i` is
      the first that looks like a hash among those with two more segments behind them. */
  ghost predicate Decomposes(full: string, segments: seq<string>, i: nat) {
    && |segments| >= 4
    && Free(segments, '-')
    && full == PREFIX + Join(segments, '-')
    && i + 2 < |segments|
    && IsHash(segments[i])
    && forall k :: 0 <= k < i ==> !IsHash(segments[k])
  }

  lemma PodHashIndexIs(parts: seq<string>, i: nat)
    requires i + 1 < |parts| && IsHash(parts[i])
    requires forall k :: 0 <= k < i ==> !IsHash(parts[k])
    ensures PodHashIndex(parts, 0) == i
  {
  }

  lemma StableNameOf(full: string, segments: seq<string>, i: nat)
    requires Decomposes(full, segments, i)
    ensures StableName(full) == Join(segments[..i], '-') + "-" + Join(segments[i + 1..|segments| - 1], '-')
  {
    var w := segments[..|segments| - 1];
    assert full[|PREFIX|..] == Join(segments, '-');
    SplitJoin(segments, '-');
    PodHashIndexIs(w, i);
    assert w[..i] == segments[..i] && w[i + 1..] == segments[i + 1..|segments| - 1];
  }

  /** The segments of the result: the input's, less the first hash and the last segment.
      When the hash comes first, an empty segment stands in its place. */
  lemma StructureResult(full: string, segments: seq<string>, i: nat)
    requires Decomposes(full, segments, i)
    ensures Split(StableName(full), '-')
         == (if i == 0 then [""] else segments[..i]) + segments[i + 1..|segments| - 1]
  {
    StableNameOf(full, segments, i);
    var before := if i == 0 then [""] else segments[..i];
    var after := segments[i + 1..|segments| - 1];
    assert Join(before, '-') == Join(segments[..i], '-');
    SplitConcat(Join(before, '-'), Join(after, '-'), '-');
    SplitJoin(before, '-');
    SplitJoin(after, '-');
  }

  lemma {:induction false} JoinLength(parts: seq<string>, i: nat)
    requires i < |parts|
    ensures |Join(parts, '-')| >= |parts[i]|
    ensures i + 1 < |parts| ==> |Join(parts, '-')| >= |Join(parts[..i], '-')| + |Join(parts[i + 1..], '-')|
  {
    if |parts| > 1 {
      if i == 0 {
      } else {
        JoinLength(parts[1..], i - 1);
        assert parts[..i][1..] == parts[1..][..i - 1];
        assert parts[1..][i..] == parts[i + 1..];
      }
    }
  }

  lemma ChangedDecomposes(full: string) returns (segments: seq<string>, i: nat)
    requires StableName(full) != full
    ensures Decomposes(full, segments, i)
  {
    var rest := full[|PREFIX|..];
    segments := Split(rest, '-');
    i := PodHashIndex(segments[..|segments| - 1], 0);
    JoinSplit(rest, '-');
    SplitIsFree(rest, '-');
    assert full == PREFIX + rest;
    forall k | 0 <= k < i ensures !IsHash(segments[k]) {
      assert segments[k] == segments[..|segments| - 1][k];
    }
  }

  lemma DecomposedShortens(full: string, segments: seq<string>, i: nat)
    requires Decomposes(full, segments, i)
    ensures |StableName(full)| < |full|
  {
    StableNameOf(full, segments, i);
    var w := segments[..|segments| - 1];
    assert w + [segments[|segments| - 1]] == segments;
    JoinConcat(w, [segments[|segments| - 1]], '-');
    JoinLength(w, i);
    assert w[..i] == segments[..i] && w[i + 1..] == segments[i + 1..|segments| - 1];
  }

  /** A name is changed exactly when it decomposes. */
  lemma ChangedIffDecomposes(full: string)
    ensures StableName(full) != full <==> exists segments, i: nat :: Decomposes(full, segments, i)
  {
    if StableName(full) != full {
      var segments, i := ChangedDecomposes(full);
    }
    if segments, i: nat :| Decomposes(full, segments, i) {
      DecomposedShortens(full, segments, i);
    }
  }

  // ---- KubeVirt names and migration ----

  /** `virt-launcher-<vmi>-<pod hash>-<template>-<claim hash>`. */
  function KubeVirtName(vmi: string, podHash: string, template: string, claimHash: string): string {
    PREFIX + (vmi + "-" + (podHash + "-" + (template + "-" + claimHash)))
  }

  ghost function KubeVirtSegments(vmi: string, podHash: string, template: string, claimHash: string): seq<string> {
    Split(vmi, '-') + ([podHash] + (Split(template, '-') + [claimHash]))
  }

  ghost predicate NoHashSegment(vmi: string) {
    forall k :: 0 <= k < |Split(vmi, '-')| ==> !IsHash(Split(vmi, '-')[k])
  }

  lemma KubeVirtSplit(vmi: string, podHash: string, template: string, claimHash: string)
    requires IsHash(podHash) && '-' !in claimHash
    ensures var segments := KubeVirtSegments(vmi, podHash, template, claimHash);
            |segments| >= 4 && Free(segments, '-')
                && KubeVirtName(vmi, podHash, template, claimHash) == PREFIX + Join(segments, '-')
  {
    var tail := template + "-" + claimHash;
    var rest := podHash + "-" + tail;
    var name := vmi + "-" + rest;
    assert '-' !in podHash;
    SplitOfFree(claimHash, '-');
    SplitOfFree(podHash, '-');
    SplitConcat(template, claimHash, '-');
    SplitConcat(podHash, tail, '-');
    SplitConcat(vmi, rest, '-');
    assert Split(name, '-') == KubeVirtSegments(vmi, podHash, template, claimHash);
    JoinSplit(name, '-');
    SplitIsFree(name, '-');
  }

  lemma StableWithoutHashSegment(vmi: string, podHash: string, template: string, claimHash: string)
    requires IsHash(podHash) && '-' !in claimHash && NoHashSegment(vmi)
    ensures StableName(KubeVirtName(vmi, podHash, template, claimHash)) == vmi + "-" + template
  {
    var segments := KubeVirtSegments(vmi, podHash, template, claimHash);
    var i := |Split(vmi, '-')|;
    KubeVirtSplit(vmi, podHash, template, claimHash);
    StableNameOf(KubeVirtName(vmi, podHash, template, claimHash), segments, i);
    assert segments[..i] == Split(vmi, '-');
    assert segments[i + 1..|segments| - 1] == Split(template, '-');
    JoinSplit(vmi, '-');
    JoinSplit(template, '-');
  }

  /** What is left of a VMI name whose first hash-like segment is segment `i`. */
  ghost function Remnant(vs: seq<string>, i: nat): seq<string>
    requires i < |vs|
  {
    (if i == 0 then [""] else vs[..i]) + vs[i + 1..]
  }

  lemma DropFirstHash(full: string, vs: seq<string>, tail: seq<string>, last: string, i: nat)
    requires |vs + tail + [last]| >= 4 && Free(vs + tail + [last], '-')
        && full == PREFIX + Join(vs + tail + [last], '-')
    requires i < |vs| && |tail| >= 1 && IsHash(vs[i])
    requires forall k :: 0 <= k < i ==> !IsHash(vs[k])
    ensures Split(StableName(full), '-') == Remnant(vs, i) + tail
  {
    assert Decomposes(full, vs + tail + [last], i);
    StructureResult(full, vs + tail + [last], i);
    SegmentsLeft(vs, tail, last, i);
  }

  lemma SegmentsLeft(vs: seq<string>, tail: seq<string>, last: string, i: nat)
    requires i < |vs|
    ensures var segments := vs + tail + [last];
            (if i == 0 then [""] else segments[..i]) + segments[i + 1..|segments| - 1] == Remnant(vs, i) + tail
  {
    var segments := vs + tail + [last];
    assert segments[..i] == vs[..i];
    assert segments[i + 1..|segments| - 1] == vs[i + 1..] + tail;
  }

  /** With a hash-like segment in the VMI name that segment is dropped instead, and the pod
      hash stays in the result. */
  lemma StableWithHashSegment(vmi: string, podHash: string, template: string, claimHash: string, i: nat)
    requires IsHash(podHash) && '-' !in claimHash
    requires i < |Split(vmi, '-')| && IsHash(Split(vmi, '-')[i])
    requires forall k :: 0 <= k < i ==> !IsHash(Split(vmi, '-')[k])
    ensures Split(StableName(KubeVirtName(vmi, podHash, template, claimHash)), '-')
         == Remnant(Split(vmi, '-'), i) + ([podHash] + Split(template, '-'))
  {
    var tail := [podHash] + Split(template, '-');
    KubeVirtSplit(vmi, podHash, template, claimHash);
    assert KubeVirtSegments(vmi, podHash, template, claimHash) == Split(vmi, '-') + tail + [claimHash];
    DropFirstHash(KubeVirtName(vmi, podHash, template, claimHash), Split(vmi, '-'), tail, claimHash, i);
  }

  lemma FirstHashSegment(vs: seq<string>) returns (i: nat)
    requires exists k :: 0 <= k < |vs| && IsHash(vs[k])
    ensures i < |vs| && IsHash(vs[i])
    ensures forall k :: 0 <= k < i ==> !IsHash(vs[k])
  {
    i := 0;
    while !IsHash(vs[i])
      invariant i < |vs| && exists k :: i <= k < |vs| && IsHash(vs[k])
      invariant forall k :: 0 <= k < i ==> !IsHash(vs[k])
      decreases |vs| - i
    {
      i := i + 1;
    }
  }

  /** Two pods of such a VMI always get two different names. */
  lemma DriftsWithHashSegment(vmi: string, pod: string, pod': string, template: string, claimHash: string,
      claimHash': string)
    requires IsHash(pod) && IsHash(pod') && pod != pod'
    requires '-' !in claimHash && '-' !in claimHash' && !NoHashSegment(vmi)
    ensures StableName(KubeVirtName(vmi, pod, template, claimHash))
        != StableName(KubeVirtName(vmi, pod', template, claimHash'))
  {
    var i := FirstHashSegment(Split(vmi, '-'));
    StableWithHashSegment(vmi, pod, template, claimHash, i);
    StableWithHashSegment(vmi, pod', template, claimHash', i);
    var common := Remnant(Split(vmi, '-'), i);
    assert (common + ([pod] + Split(template, '-')))[|common|] == pod;
    assert (common + ([pod'] + Split(template, '-')))[|common|] == pod';
  }

  /** Migration stability, exactly: every pod of the VMI and every claim hash give
      `<vmi>-<template>` if and only if no segment of the VMI name looks like a pod hash. */
  lemma MigrationStableIff(vmi: string, template: string)
    ensures (forall podHash, claimHash | IsHash(podHash) && '-' !in claimHash ::
               StableName(KubeVirtName(vmi, podHash, template, claimHash)) == vmi + "-" + template)
       <==> NoHashSegment(vmi)
  {
    if NoHashSegment(vmi) {
      forall podHash, claimHash | IsHash(podHash) && '-' !in claimHash
        ensures StableName(KubeVirtName(vmi, podHash, template, claimHash)) == vmi + "-" + template
      {
        StableWithoutHashSegment(vmi, podHash, template, claimHash);
      }
    } else {
      DriftsWithHashSegment(vmi, "aaaaa", "bbbbb", template, "", "");
      assert IsHash("aaaaa") && IsHash("bbbbb") && '-' !in "";
    }
  }

  /** One name goes on after the other with a dash. */
  ghost predicate Extends(vmi: string, vmi': string) {
    vmi' + "-" <= vmi
  }

  lemma SharedJoin(vmi: string, template: string, vmi': string, template': string)
    requires vmi + "-" + template == vmi' + "-" + template'
    ensures vmi == vmi' || Extends(vmi, vmi') || Extends(vmi', vmi)
    ensures vmi == vmi' ==> template == template'
  {
    var name := vmi + "-" + template;
    assert name[..|vmi|] == vmi && name[..|vmi'|] == vmi' && name[|vmi|] == '-' && name[|vmi'|] == '-';
    assert name[|vmi| + 1..] == template && name[|vmi'| + 1..] == template';
    if |vmi'| < |vmi| {
      assert vmi[..|vmi'|] == vmi' && vmi[|vmi'|] == '-';
    } else if |vmi| < |vmi'| {
      assert vmi'[..|vmi|] == vmi && vmi'[|vmi|] == '-';
    }
  }

  /** Some claims of the two machines share a stable name. */
  ghost predicate CanShare(vmi: string, vmi': string) {
    exists template, template' :: SharesName(vmi, template, vmi', template')
  }

  /** Whatever the pods and the claim hashes. */
  ghost predicate SharesName(vmi: string, template: string, vmi': string, template': string) {
    forall pod, claimHash, pod', claimHash' | IsHash(pod) && IsHash(pod') && '-' !in claimHash && '-' !in claimHash' ::
      StableName(KubeVirtName(vmi, pod, template, claimHash))
          == StableName(KubeVirtName(vmi', pod', template', claimHash'))
  }

  lemma SharesNameIff(vmi: string, template: string, vmi': string, template': string)
    requires NoHashSegment(vmi) && NoHashSegment(vmi')
    ensures SharesName(vmi, template, vmi', template') <==> vmi + "-" + template == vmi' + "-" + template'
  {
    forall pod, claimHash | IsHash(pod) && '-' !in claimHash
      ensures StableName(KubeVirtName(vmi, pod, template, claimHash)) == vmi + "-" + template
      ensures StableName(KubeVirtName(vmi', pod, template', claimHash)) == vmi' + "-" + template'
    {
      StableWithoutHashSegment(vmi, pod, template, claimHash);
      StableWithoutHashSegment(vmi', pod, template', claimHash);
    }
    assert IsHash("aaaaa") && '-' !in "";
  }

  lemma ExtensionShares(vmi: string, vmi': string)
    requires NoHashSegment(vmi) && NoHashSegment(vmi') && Extends(vmi, vmi')
    ensures SharesName(vmi, "t", vmi', vmi[|vmi'| + 1..] + "-t")
  {
    var rest := vmi[|vmi'| + 1..];
    assert vmi == vmi' + "-" + rest;
    assert vmi + "-" + "t" == vmi' + "-" + (rest + "-t");
    SharesNameIff(vmi, "t", vmi', rest + "-t");
  }

  lemma SharedOverPods(vmi: string, template: string, vmi': string, template': string, pod: string, pod': string)
    requires SharesName(vmi, template, vmi', template') && IsHash(pod) && IsHash(pod')
    ensures StableName(KubeVirtName(vmi, pod, template, "")) == StableName(KubeVirtName(vmi, pod', template, ""))
  {
    assert '-' !in "";
    assert StableName(KubeVirtName(vmi, pod, template, "")) == StableName(KubeVirtName(vmi', pod, template', ""));
  }

  /** With a hash-like segment in the machine name, no claim keeps one name for all pods. */
  lemma HashSegmentSharesNothing(vmi: string, template: string, vmi': string, template': string)
    requires !NoHashSegment(vmi)
    ensures !SharesName(vmi, template, vmi', template')
  {
    DriftsWithHashSegment(vmi, "aaaaa", "bbbbb", template, "", "");
    if SharesName(vmi, template, vmi', template') {
      SharedOverPods(vmi, template, vmi', template', "aaaaa", "bbbbb");
    }
  }

  lemma SharesNameTurned(vmi: string, template: string, vmi': string, template': string)
    requires SharesName(vmi, template, vmi', template')
    ensures SharesName(vmi', template', vmi, template)
  {
  }

  lemma SharingNames(vmi: string, template: string, vmi': string, template': string)
    requires SharesName(vmi, template, vmi', template')
    ensures NoHashSegment(vmi) && NoHashSegment(vmi') && (vmi == vmi' || Extends(vmi, vmi') || Extends(vmi', vmi))
  {
    SharesNameTurned(vmi, template, vmi', template');
    if !NoHashSegment(vmi) {
      HashSegmentSharesNothing(vmi, template, vmi', template');
    } else if !NoHashSegment(vmi') {
      HashSegmentSharesNothing(vmi', template', vmi, template);
    } else {
      SharesNameIff(vmi, template, vmi', template');
      SharedJoin(vmi, template, vmi', template');
    }
  }

  /** Exactly when claims of two machines can get one stable name that lasts over all pods: when
      neither name has a hash-like segment and they are equal, as in two namespaces, or one goes on
      after the other with a dash. */
  lemma CanShareIff(vmi: string, vmi': string)
    ensures CanShare(vmi, vmi')
       <==> NoHashSegment(vmi) && NoHashSegment(vmi') && (vmi == vmi' || Extends(vmi, vmi') || Extends(vmi', vmi))
  {
    if template, template' :| SharesName(vmi, template, vmi', template') {
      SharingNames(vmi, template, vmi', template');
    }
    if NoHashSegment(vmi) && NoHashSegment(vmi') {
      if vmi == vmi' {
        SharesNameIff(vmi, "t", vmi', "t");
      } else if Extends(vmi, vmi') {
        ExtensionShares(vmi, vmi');
      } else if Extends(vmi', vmi) {
        ExtensionShares(vmi', vmi);
        SharesNameTurned(vmi', "t", vmi, vmi'[|vmi| + 1..] + "-t");
      }
    }
  }

  /** Where neither machine name goes on after the other with a dash, the stable name determines
      both the machine and the template. */
  lemma UniqueRecovery(vmi: string, pod: string, template: string, claimHash: string,
                       vmi': string, pod': string, template': string, claimHash': string)
    requires IsHash(pod) && IsHash(pod') && '-' !in claimHash && '-' !in claimHash'
    requires NoHashSegment(vmi) && NoHashSegment(vmi')
    requires !Extends(vmi, vmi') && !Extends(vmi', vmi)
    requires StableName(KubeVirtName(vmi, pod, template, claimHash))
        == StableName(KubeVirtName(vmi', pod', template', claimHash'))
    ensures vmi == vmi' && template == template'
  {
    StableWithoutHashSegment(vmi, pod, template, claimHash);
    StableWithoutHashSegment(vmi', pod', template', claimHash');
    SharedJoin(vmi, template, vmi', template');
  }

  lemma ShortNames()
    ensures Split("a-b", '-') == ["a", "b"] && Split("a", '-') == ["a"]
  {
    SplitOfFree("a", '-');
    SplitOfFree("b", '-');
    SplitConcat("a", "b", '-');
    assert "a" + "-" + "b" == "a-b";
  }

  /** Two such machines. */
  lemma SharedNameExists()
    ensures NoHashSegment("a-b") && NoHashSegment("a")
    ensures SharesName("a-b", "c", "a", "b-c")
  {
    ShortNames();
    assert "a-b" + "-" + "c" == "a" + "-" + "b-c";
    SharesNameIff("a-b", "c", "a", "b-c");
  }

  // ---- which characters a stable name has ----

  lemma {:induction false} SplitChars(text: string, sep: char, c: char)
    requires c !in text
    ensures Free(Split(text, sep), c)
  {
    if text != "" {
      SplitChars(text[1..], sep, c);
    }
  }

  lemma {:induction false} JoinChars(parts: seq<string>, sep: char, c: char)
    requires Free(parts, c) && c != sep
    ensures c !in Join(parts, sep)
  {
    if |parts| > 1 {
      JoinChars(parts[1..], sep, c);
    }
  }

  lemma RejoinedChars(parts: seq<string>, i: nat, c: char)
    requires Free(parts, c) && c != '-' && i < |parts|
    ensures c !in Join(parts[..i], '-') + "-" + Join(parts[i + 1..], '-')
  {
    JoinChars(parts[..i], '-', c);
    JoinChars(parts[i + 1..], '-', c);
  }

  /** The parser adds no character but the dash. */
  lemma StableNameChars(full: string, c: char)
    requires c !in full && c != '-'
    ensures c !in StableName(full)
  {
    if StableName(full) != full {
      var parts := Split(full[|PREFIX|..], '-');
      SplitChars(full[|PREFIX|..], '-', c);
      RejoinedChars(parts[..|parts| - 1], PodHashIndex(parts[..|parts| - 1], 0), c);
    }
  }

  lemma StableNameNotEmpty(full: string)
    requires full != ""
    ensures StableName(full) != ""
  {
  }
}
