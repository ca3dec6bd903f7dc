/** The line-oriented rewrite behind `cosign dockerfile resolve`: every image
    reference of a Dockerfile that can be pinned is replaced by its
    digest-qualified form, in one left-to-right pass over the lines.

    The image-reference parser and the registry lookup are collaborators this
    model does not contain: the rewrite takes them as the parameters `parses`
    (does the token parse as an image reference?) and `resolve` (the
    digest-qualified reference the registry gives for it, or None when the
    lookup fails). */
module Dockerfile {
  import opened Wrappers
  import opened Text

  /** The three kinds of line the rewrite tells apart. */
  datatype Kind = FromInstruction | CopyFromInstruction | Other

  /** An instruction line cut around its image reference: everything before
      the reference, the reference, everything after it. */
  datatype Candidate = Candidate(prefix: string, image: string, suffix: string)

  /** The only failure: the registry could not resolve an eligible reference. */
  datatype Error = ResolveFailed(image: string)

  const FromKeyword: string := "FROM"
  const CopyKeyword: string := "COPY"
  const FromFlag: string := "--from="
  const DigestMarker: string := "@sha256:"
  const Scratch: string := "scratch"
  const Placeholder: string := "$("

  /** `line` starts with `keyword` followed by white space. */
  predicate HasKeyword(line: string, keyword: string) {
    StartsWith(line, keyword) && |line| > |keyword| && IsSpace(line[|keyword|])
  }

  /** Classifies a trimmed line by its leading keyword: `FROM`, or `COPY` with
      a `--from=` flag; every other line is left alone. */
  function Classify(line: string): (k: Kind)
    ensures k == FromInstruction ==> |line| > |FromKeyword| && IsSpace(line[|FromKeyword|])
    ensures HasKeyword(line, FromKeyword) ==> k == FromInstruction
    ensures k == CopyFromInstruction ==>
              && StartsWith(line, CopyKeyword) && |line| > |CopyKeyword| && IsSpace(line[|CopyKeyword|])
              && Contains(line, FromFlag)
  {
    if HasKeyword(line, FromKeyword) then FromInstruction
    else if HasKeyword(line, CopyKeyword) && Contains(line, FromFlag) then CopyFromInstruction
    else Other
  }

  /** Where the image reference of a `FROM` line starts: after the keyword
      and all the white space that follows it. */
  function FromImageStart(line: string): (start: nat)
    requires HasKeyword(line, FromKeyword)
    ensures |FromKeyword| < start <= |line|
    ensures AllSpace(line[|FromKeyword|..start])
    ensures Trimmed(line) ==> start < |line| && !IsSpace(line[start])
  {
    var k := |FromKeyword|;
    var n := Span(line[k..], true);
    assert line[k..][..n] == line[k..k + n];
    assert n > 0 ==> IsSpace(line[k..k + n][n - 1]);
    k + n
  }

  /** Where the image reference of a `COPY` line starts: right after its
      first `--from=`. */
  function CopyImageStart(line: string): (start: nat)
    requires Contains(line, FromFlag)
    ensures |FromFlag| <= start <= |line|
    ensures IndexOf(line, FromFlag) == Some(start - |FromFlag|)
  {
    IndexOf(line, FromFlag).value + |FromFlag|
  }

  /** Cuts `line` around the token that starts at `start` and runs up to the
      next white space; the pieces put together give the line back. */
  function Cut(line: string, start: nat): (c: Candidate)
    requires start <= |line|
    ensures c.prefix == line[..start]
    ensures c.prefix + c.image + c.suffix == line
    ensures NoSpace(c.image)
    ensures c.suffix == [] || IsSpace(c.suffix[0])
    ensures start < |line| && !IsSpace(line[start]) ==> c.image != []
  {
    var k := Span(line[start..], false);
    assert line[start..][..k] == line[start..start + k];
    var c := Candidate(line[..start], line[start..start + k], line[start + k..]);
    assert c.prefix + c.image + c.suffix == line;
    c
  }

  /** Cuts an instruction line around its image reference: for `FROM`, the
      token after the keyword and the white space that follows it; for
      `COPY`, the token after the first `--from=`. */
  function Extract(line: string): (c: Candidate)
    requires Classify(line) != Other
    ensures c.prefix + c.image + c.suffix == line
    ensures |c.prefix| <= |line| && c.prefix == line[..|c.prefix|]
    ensures NoSpace(c.image)
    ensures c.suffix == [] || IsSpace(c.suffix[0])
    ensures Classify(line) == FromInstruction ==>
              && |c.prefix| > |FromKeyword|
              && c.prefix[..|FromKeyword|] == FromKeyword
              && AllSpace(c.prefix[|FromKeyword|..])
              && (Trimmed(line) ==> c.image != [])
    ensures Classify(line) == CopyFromInstruction ==>
              |c.prefix| >= |FromFlag| && IndexOf(line, FromFlag) == Some(|c.prefix| - |FromFlag|)
  {
    if Classify(line) == FromInstruction then
      var start := FromImageStart(line);
      var c := Cut(line, start);
      assert c.prefix[..|FromKeyword|] == line[..|FromKeyword|];
      assert c.prefix[|FromKeyword|..] == line[|FromKeyword|..start];
      c
    else
      Cut(line, CopyImageStart(line))
  }

  /** Puts `ref` where the candidate's image reference was. */
  function Splice(c: Candidate, ref: string): (line: string)
    ensures |line| == |c.prefix| + |ref| + |c.suffix|
  {
    c.prefix + ref + c.suffix
  }

  /** A non-empty token without white space: what the registry hands back. */
  predicate IsToken(s: string) {
    s != [] && NoSpace(s)
  }

  /** The registry only ever answers with a single token. */
  ghost predicate ProducesTokens(resolve: string -> Option<string>) {
    forall image :: resolve(image).Some? ==> IsToken(resolve(image).value)
  }

  /** The registry only ever answers with a digest-qualified token. */
  ghost predicate PinsDigests(resolve: string -> Option<string>) {
    ProducesTokens(resolve) &&
    forall image :: resolve(image).Some? ==> Contains(resolve(image).value, DigestMarker)
  }

  /** The reference parser rejects every token holding a `$(` placeholder. */
  ghost predicate RejectsPlaceholders(parses: string -> bool) {
    forall image :: Contains(image, Placeholder) ==> !parses(image)
  }

  /** A reference is looked up only when it is not `scratch`, is not already
      pinned to a digest, and parses as an image reference. */
  predicate Eligible(image: string, parses: string -> bool) {
    image != Scratch && !Contains(image, DigestMarker) && parses(image)
  }

  /** One line of the output: the line with the white space around it
      removed, then rewritten. */
  function RewriteLine(raw: string, parses: string -> bool, resolve: string -> Option<string>): Result<string, Error> {
    RewriteTrimmed(TrimSpace(raw), parses, resolve)
  }

  /** A trimmed line, with its image reference replaced by the registry's
      answer when the reference is eligible; a failed lookup fails the
      line. */
  function RewriteTrimmed(line: string, parses: string -> bool, resolve: string -> Option<string>): Result<string, Error> {
    if Classify(line) == Other then Success(line)
    else
      var c := Extract(line);
      if !Eligible(c.image, parses) then Success(line)
      else match resolve(c.image)
        case Some(ref) => Success(Splice(c, ref))
        case None => Failure(ResolveFailed(c.image))
  }

  /** Applies `step` to the lines in order, stopping at the first failure. It
      succeeds exactly when every step does, and then holds one result per
      line, in the same order; otherwise its error is that of the first
      failing line. */
  function Traverse(lines: seq<string>, step: string -> Result<string, Error>): (r: Result<seq<string>, Error>)
    ensures r.Success? <==> forall i :: 0 <= i < |lines| ==> step(lines[i]).Success?
    ensures r.Success? ==>
              && |r.value| == |lines|
              && forall i :: 0 <= i < |lines| ==> step(lines[i]) == Success(r.value[i])
    ensures r.Failure? ==>
              exists i :: && 0 <= i < |lines|
                          && step(lines[i]) == Failure(r.error)
                          && forall j :: 0 <= j < i ==> step(lines[j]).Success?
  {
    if lines == [] then Success([])
    else
      var head := step(lines[0]);
      var tail := Traverse(lines[1..], step);
      assert forall i :: 1 <= i < |lines| ==> lines[i] == lines[1..][i - 1];
      if head.Failure? then Failure(head.error)
      else if tail.Failure? then
        var k :| 0 <= k < |lines[1..]| && step(lines[1..][k]) == Failure(tail.error)
                 && forall j :: 0 <= j < k ==> step(lines[1..][j]).Success?;
        assert step(lines[k + 1]) == Failure(tail.error);
        Failure(tail.error)
      else Success([head.value] + tail.value)
  }

  /** Rewrites the lines in order, one output line per input line; the first
      failed lookup fails the whole rewrite and no output is produced. */
  function Rewrite(lines: seq<string>, parses: string -> bool, resolve: string -> Option<string>): (r: Result<seq<string>, Error>)
    ensures r.Success? <==> forall i :: 0 <= i < |lines| ==> RewriteLine(lines[i], parses, resolve).Success?
    ensures r.Success? ==>
              && |r.value| == |lines|
              && forall i :: 0 <= i < |lines| ==> RewriteLine(lines[i], parses, resolve) == Success(r.value[i])
    ensures r.Failure? ==>
              exists i :: && 0 <= i < |lines|
                          && RewriteLine(lines[i], parses, resolve) == Failure(r.error)
                          && forall j :: 0 <= j < i ==> RewriteLine(lines[j], parses, resolve).Success?
  {
    Traverse(lines, raw => RewriteLine(raw, parses, resolve))
  }

  /** resolveDigest: the whole document in, the rewritten document out, each
      line followed by one newline. */
  function ResolveDigest(text: string, parses: string -> bool, resolve: string -> Option<string>): (r: Result<string, Error>)
    ensures r.Success? <==> forall i :: 0 <= i < |Lines(text)| ==> RewriteLine(Lines(text)[i], parses, resolve).Success?
  {
    match Rewrite(Lines(text), parses, resolve)
    case Success(ls) => Success(Unlines(ls))
    case Failure(e) => Failure(e)
  }
}
