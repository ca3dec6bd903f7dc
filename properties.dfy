/** What the rewrite promises about a whole document: line count and order,
    one newline per line, which lines are left alone, what is kept around a
    pinned reference, when the call fails, and that a second pass changes
    nothing. */
module ResolveProperties {
  import opened Wrappers
  import opened Text
  import opened Dockerfile

  /** The `i`-th line of `text` as the rewrite sees it: trimmed. */
  function TrimmedLine(text: string, i: nat): string
    requires i < |Lines(text)|
  {
    TrimSpace(Lines(text)[i])
  }

  /** The line is a `FROM` or `COPY --from=` instruction. */
  predicate IsInstruction(line: string) {
    Classify(line) != Other
  }

  /** Cutting at `start` finds exactly the token that starts there: the
      text after `start` is that token followed by nothing or by white
      space. */
  lemma CutOfJoin(line: string, start: nat, image: string, suffix: string)
    requires start <= |line| && line[start..] == image + suffix
    requires NoSpace(image) && (suffix == [] || IsSpace(suffix[0]))
    ensures Cut(line, start) == Candidate(line[..start], image, suffix)
  {
    SpanOfJoin(image, suffix, false);
    assert line[start..start + |image|] == image;
    assert line[start + |image|..] == suffix;
  }

  /** A `FROM` line is cut after the keyword and the white space that
      follows it, and again at the first white space after the image. */
  lemma ExtractFromLine(ws: string, image: string, suffix: string)
    requires ws != [] && AllSpace(ws) && image != [] && NoSpace(image)
    requires suffix == [] || IsSpace(suffix[0])
    ensures Classify(FromKeyword + ws + image + suffix) == FromInstruction
    ensures Extract(FromKeyword + ws + image + suffix) == Candidate(FromKeyword + ws, image, suffix)
  {
    var line := FromKeyword + ws + image + suffix;
    assert line == FromKeyword + ws + (image + suffix);
    FromImageAfter(ws, image + suffix);
    CutOfJoin(line, |FromKeyword| + |ws|, image, suffix);
  }

  /** The image of a `FROM` line starts right after the keyword and the
      white space that follows it. */
  lemma FromImageAfter(ws: string, rest: string)
    requires ws != [] && AllSpace(ws) && rest != [] && !IsSpace(rest[0])
    ensures var line := FromKeyword + ws + rest;
            && HasKeyword(line, FromKeyword)
            && FromImageStart(line) == |FromKeyword| + |ws|
            && line[..|FromKeyword| + |ws|] == FromKeyword + ws
            && line[|FromKeyword| + |ws|..] == rest
  {
    var line := FromKeyword + ws + rest;
    var n := |FromKeyword|;
    assert line[..n] == FromKeyword && line[n] == ws[0];
    assert line[n..] == ws + rest;
    SpanOfJoin(ws, rest, true);
  }

  /** A `COPY --from=` line is cut after the flag and again at the first
      white space after the image. */
  lemma ExtractCopyLine(image: string, suffix: string)
    requires NoSpace(image)
    requires suffix == [] || IsSpace(suffix[0])
    ensures Classify("COPY " + FromFlag + image + suffix) == CopyFromInstruction
    ensures Extract("COPY " + FromFlag + image + suffix) == Candidate("COPY " + FromFlag, image, suffix)
  {
    var line := "COPY " + FromFlag + image + suffix;
    assert line == "COPY " + FromFlag + (image + suffix);
    CopyImageAfter(image + suffix);
    CutOfJoin(line, |"COPY " + FromFlag|, image, suffix);
  }

  /** In a line that starts `COPY --from=`, the image starts right after
      the flag. */
  lemma CopyImageAfter(rest: string)
    ensures var line := "COPY " + FromFlag + rest;
            var p := |"COPY " + FromFlag|;
            && Classify(line) == CopyFromInstruction
            && CopyImageStart(line) == p
            && line[..p] == "COPY " + FromFlag
            && line[p..] == rest
  {
    var line := "COPY " + FromFlag + rest;
    assert line[..4] == CopyKeyword && line[4] == ' ';
    assert OccursAt(line, FromFlag, 5) by {
      assert line[5..12] == FromFlag;
    }
    IndexOfFirst(line, FromFlag, 5);
    assert !HasKeyword(line, FromKeyword) by {
      assert line[..4] != FromKeyword;
    }
  }

  /** What a line of a known shape becomes: an ineligible image leaves it
      as it is, a failed lookup names the image, and a successful lookup
      replaces the image and nothing else. */
  function Outcome(prefix: string, image: string, suffix: string, parses: string -> bool, resolve: string -> Option<string>): Result<string, Error> {
    if !Eligible(image, parses) then Success(prefix + image + suffix)
    else if resolve(image).None? then Failure(ResolveFailed(image))
    else Success(prefix + resolve(image).value + suffix)
  }

  /** Surrounding white space makes no difference to how a line is
      rewritten. */
  lemma RewriteLineTrims(raw: string, parses: string -> bool, resolve: string -> Option<string>)
    ensures RewriteLine(raw, parses, resolve) == RewriteLine(TrimSpace(raw), parses, resolve)
  {
    var t := TrimSpace(raw);
    TrimSpaceOfTrimmed(t);
    assert TrimSpace(t) == t;
  }

  /** A trimmed instruction line is cut around its image reference, and
      only that reference is looked up and replaced. */
  lemma InstructionOutcome(line: string, parses: string -> bool, resolve: string -> Option<string>)
    requires Trimmed(line) && IsInstruction(line)
    ensures var c := Extract(line);
            RewriteLine(line, parses, resolve) == Outcome(c.prefix, c.image, c.suffix, parses, resolve)
  {
    RewriteLineOfTrimmed(line, parses, resolve);
    TrimmedOutcome(line, parses, resolve);
  }

  /** A line that is already trimmed is rewritten as it stands. */
  lemma RewriteLineOfTrimmed(line: string, parses: string -> bool, resolve: string -> Option<string>)
    requires Trimmed(line)
    ensures RewriteLine(line, parses, resolve) == RewriteTrimmed(line, parses, resolve)
  {
    TrimSpaceOfTrimmed(line);
  }

  lemma TrimmedOutcome(line: string, parses: string -> bool, resolve: string -> Option<string>)
    requires IsInstruction(line)
    ensures var c := Extract(line);
            RewriteTrimmed(line, parses, resolve) == Outcome(c.prefix, c.image, c.suffix, parses, resolve)
  {
    var c := Extract(line);
    if Eligible(c.image, parses) && resolve(c.image).Some? {
      assert RewriteTrimmed(line, parses, resolve) == Success(Splice(c, resolve(c.image).value));
    }
  }

  /** Instruction lines built from a keyword, an image token and a suffix
      that does not end in white space are trimmed. */
  lemma SplicedTrimmed(prefix: string, image: string, suffix: string)
    requires prefix != [] && !IsSpace(prefix[0]) && image != [] && NoSpace(image)
    requires suffix == [] || !IsSpace(suffix[|suffix| - 1])
    ensures Trimmed(prefix + image + suffix)
  {
    JoinEnds(prefix, image, suffix);
  }

  /** A `FROM` line: the keyword, white space, the image, then either
      nothing or white space and more (an ` AS <alias>`). Only the image is
      ever replaced, and only when it is eligible. */
  lemma FromLineOutcome(ws: string, image: string, suffix: string, parses: string -> bool, resolve: string -> Option<string>)
    requires ws != [] && AllSpace(ws) && image != [] && NoSpace(image)
    requires suffix == [] || (IsSpace(suffix[0]) && !IsSpace(suffix[|suffix| - 1]))
    ensures RewriteLine(FromKeyword + ws + image + suffix, parses, resolve)
            == Outcome(FromKeyword + ws, image, suffix, parses, resolve)
  {
    var line := FromKeyword + ws + image + suffix;
    SplicedTrimmed(FromKeyword + ws, image, suffix);
    ExtractFromLine(ws, image, suffix);
    InstructionOutcome(line, parses, resolve);
  }

  /** A `COPY --from=` line: the flag, the image, then either nothing or
      white space and the copy's paths. Only the image is ever replaced, and
      only when it is eligible. */
  lemma CopyLineOutcome(image: string, suffix: string, parses: string -> bool, resolve: string -> Option<string>)
    requires image != [] && NoSpace(image)
    requires suffix == [] || (IsSpace(suffix[0]) && !IsSpace(suffix[|suffix| - 1]))
    ensures RewriteLine("COPY " + FromFlag + image + suffix, parses, resolve)
            == Outcome("COPY " + FromFlag, image, suffix, parses, resolve)
  {
    var line := "COPY " + FromFlag + image + suffix;
    SplicedTrimmed("COPY " + FromFlag, image, suffix);
    ExtractCopyLine(image, suffix);
    InstructionOutcome(line, parses, resolve);
  }

  /** Splicing a token into an instruction line and cutting the result again
      finds that token, with the same text before and after it; the new line
      is still trimmed and of the same kind. */
  lemma SpliceExtract(line: string, ref: string)
    requires Trimmed(line) && IsInstruction(line) && IsToken(ref)
    ensures var c := Extract(line);
            var out := Splice(c, ref);
            && Trimmed(out)
            && Classify(out) == Classify(line)
            && Extract(out) == Candidate(c.prefix, ref, c.suffix)
  {
    var c := Extract(line);
    ExtractEnds(line);
    SplicedTrimmed(c.prefix, ref, c.suffix);
    SpliceCut(line, c, ref);
  }

  /** Cutting a spliced instruction line finds the new token between the
      old prefix and suffix. */
  lemma SpliceCut(line: string, c: Candidate, ref: string)
    requires IsInstruction(line) && c == Extract(line) && IsToken(ref)
    ensures Classify(Splice(c, ref)) == Classify(line)
    ensures Extract(Splice(c, ref)) == Candidate(c.prefix, ref, c.suffix)
  {
    var out := Splice(c, ref);
    SpliceParts(c, ref);
    if Classify(line) == FromInstruction {
      SpliceFrom(line, c, ref);
    } else {
      SpliceCopy(line, c, ref);
    }
    CutOfJoin(out, |c.prefix|, ref, c.suffix);
  }

  /** A spliced line starts with the candidate's prefix and goes on with
      the new reference and the old suffix. */
  lemma SpliceParts(c: Candidate, ref: string)
    ensures |Splice(c, ref)| == |c.prefix| + |ref| + |c.suffix|
    ensures Splice(c, ref)[..|c.prefix|] == c.prefix
    ensures Splice(c, ref)[|c.prefix|..] == ref + c.suffix
  {
    assert Splice(c, ref) == c.prefix + (ref + c.suffix);
  }

  /** The pieces of a trimmed instruction keep its ends: the prefix starts
      the line, and a non-empty suffix ends it. */
  lemma ExtractEnds(line: string)
    requires Trimmed(line) && IsInstruction(line)
    ensures var c := Extract(line);
            && c.prefix != [] && !IsSpace(c.prefix[0])
            && (c.suffix == [] || !IsSpace(c.suffix[|c.suffix| - 1]))
  {
    var c := Extract(line);
    assert |c.prefix| > 0;
    JoinEnds(c.prefix, c.image, c.suffix);
  }

  /** The first character of a three-part join is its first part's, the
      last is its last non-empty part's. */
  lemma JoinEnds(p: string, m: string, s: string)
    requires p != []
    ensures (p + m + s)[0] == p[0]
    ensures s != [] ==> (p + m + s)[|p + m + s| - 1] == s[|s| - 1]
    ensures s == [] && m != [] ==> (p + m + s)[|p + m + s| - 1] == m[|m| - 1]
  {
  }

  /** A `FROM` line keeps its keyword and the white space after it when its
      image is replaced, so the new image starts where the old one did. */
  lemma SpliceFrom(line: string, c: Candidate, ref: string)
    requires Classify(line) == FromInstruction && c == Extract(line) && IsToken(ref)
    ensures Classify(Splice(c, ref)) == FromInstruction
    ensures FromImageStart(Splice(c, ref)) == |c.prefix|
  {
    var ws := c.prefix[|FromKeyword|..];
    assert c.prefix == FromKeyword + ws by {
      assert c.prefix == c.prefix[..|FromKeyword|] + ws;
    }
    assert Splice(c, ref) == FromKeyword + ws + (ref + c.suffix);
    FromImageAfter(ws, ref + c.suffix);
  }

  /** A `COPY` line keeps everything up to and including its first
      `--from=` when its image is replaced, so the new image starts where
      the old one did. */
  lemma SpliceCopy(line: string, c: Candidate, ref: string)
    requires Classify(line) == CopyFromInstruction && c == Extract(line) && IsToken(ref)
    ensures Classify(Splice(c, ref)) == CopyFromInstruction
    ensures CopyImageStart(Splice(c, ref)) == |c.prefix|
  {
    var out := Splice(c, ref);
    var q := |c.prefix| - |FromFlag|;
    FlagAfterKeyword(line, q);
    SpliceParts(c, ref);
    IndexOfSharedPrefix(line, out, FromFlag, q);
    SameKeywords(line, out, |c.prefix|);
  }

  /** The `--from=` of a `COPY` line comes after the keyword. */
  lemma FlagAfterKeyword(line: string, q: nat)
    requires HasKeyword(line, CopyKeyword) && IndexOf(line, FromFlag) == Some(q)
    ensures q >= |CopyKeyword| + 1
  {
    assert OccursAt(line, FromFlag, q);
    assert line[..4] == CopyKeyword && IsSpace(line[4]);
    assert line[q] == '-';
  }

  /** Two lines that agree on their first characters, past the keyword and
      the character after it, start with the same keyword. */
  lemma SameKeywords(line: string, out: string, n: nat)
    requires |CopyKeyword| < n <= |line| && n <= |out| && line[..n] == out[..n]
    ensures HasKeyword(out, FromKeyword) == HasKeyword(line, FromKeyword)
    ensures HasKeyword(out, CopyKeyword) == HasKeyword(line, CopyKeyword)
  {
    assert line[..4] == line[..n][..4] == out[..n][..4] == out[..4];
    assert line[4] == line[..n][4] == out[..n][4] == out[4];
  }

  /** A line without a newline is rewritten into a line without one, as long
      as the registry answers with single tokens. */
  lemma RewriteLineHasNoNewline(raw: string, parses: string -> bool, resolve: string -> Option<string>)
    requires '\n' !in raw
    requires ProducesTokens(resolve)
    requires RewriteLine(raw, parses, resolve).Success?
    ensures '\n' !in RewriteLine(raw, parses, resolve).value
  {
    var line := TrimSpace(raw);
    TrimSpaceKeepsOut(raw, '\n');
    if IsInstruction(line) {
      var c := Extract(line);
      if Eligible(c.image, parses) {
        var ref := resolve(c.image).value;
        assert '\n' !in c.prefix && '\n' !in c.suffix by {
          assert c.prefix == line[..|c.prefix|];
          assert c.suffix == line[|c.prefix| + |c.image|..];
        }
        assert Splice(c, ref) == c.prefix + ref + c.suffix;
      }
    }
  }

  /** The output has exactly as many lines as the input, in the same order,
      the `i`-th output line is the rewrite of the `i`-th input line, and
      every output line ends with exactly one newline: a missing final
      newline is added and a final newline does not become an empty line. */
  lemma {:induction false} LinewiseOutcome(text: string, parses: string -> bool, resolve: string -> Option<string>, out: string)
    requires ProducesTokens(resolve)
    requires ResolveDigest(text, parses, resolve) == Success(out)
    ensures |Lines(out)| == |Lines(text)|
    ensures out == Unlines(Lines(out))
    ensures forall i :: 0 <= i < |Lines(text)| ==> RewriteLine(Lines(text)[i], parses, resolve) == Success(Lines(out)[i])
  {
    var ls := Lines(text);
    var outs := Rewrite(ls, parses, resolve).value;
    assert out == Unlines(outs);
    forall i | 0 <= i < |outs|
      ensures '\n' !in outs[i]
    {
      RewriteLineHasNoNewline(ls[i], parses, resolve);
    }
    LinesOfUnlines(outs);
  }

  /** Lines that are neither `FROM` nor `COPY --from=` keep their content and
      their position; only surrounding white space is dropped. */
  lemma NonInstructionLinesKept(text: string, parses: string -> bool, resolve: string -> Option<string>, out: string)
    requires ProducesTokens(resolve)
    requires ResolveDigest(text, parses, resolve) == Success(out)
    ensures |Lines(out)| == |Lines(text)|
    ensures forall i :: 0 <= i < |Lines(text)| && !IsInstruction(TrimmedLine(text, i)) ==>
              Lines(out)[i] == TrimmedLine(text, i)
  {
    LinewiseOutcome(text, parses, resolve, out);
  }

  /** Every instruction line whose reference is not eligible (`scratch`,
      already pinned, or not a parseable reference) is kept as it is,
      wherever it stands in the document. */
  lemma IneligibleLinesKept(text: string, parses: string -> bool, resolve: string -> Option<string>, out: string)
    requires ProducesTokens(resolve)
    requires ResolveDigest(text, parses, resolve) == Success(out)
    ensures |Lines(out)| == |Lines(text)|
    ensures forall i :: 0 <= i < |Lines(text)| && IsInstruction(TrimmedLine(text, i))
                        && !Eligible(Extract(TrimmedLine(text, i)).image, parses) ==>
              Lines(out)[i] == TrimmedLine(text, i)
  {
    LinewiseOutcome(text, parses, resolve, out);
  }

  /** `FROM scratch` is never rewritten, whatever else the document holds. */
  lemma ScratchLinesKept(text: string, parses: string -> bool, resolve: string -> Option<string>, out: string)
    requires ProducesTokens(resolve)
    requires ResolveDigest(text, parses, resolve) == Success(out)
    ensures |Lines(out)| == |Lines(text)|
    ensures forall i :: 0 <= i < |Lines(text)| && IsInstruction(TrimmedLine(text, i))
                        && Extract(TrimmedLine(text, i)).image == Scratch ==>
              Lines(out)[i] == TrimmedLine(text, i)
  {
    IneligibleLinesKept(text, parses, resolve, out);
  }

  /** A reference already in `name@sha256:<hex>` form is left as it is. */
  lemma PinnedLinesKept(text: string, parses: string -> bool, resolve: string -> Option<string>, out: string)
    requires ProducesTokens(resolve)
    requires ResolveDigest(text, parses, resolve) == Success(out)
    ensures |Lines(out)| == |Lines(text)|
    ensures forall i :: 0 <= i < |Lines(text)| && IsInstruction(TrimmedLine(text, i))
                        && Contains(Extract(TrimmedLine(text, i)).image, DigestMarker) ==>
              Lines(out)[i] == TrimmedLine(text, i)
  {
    IneligibleLinesKept(text, parses, resolve, out);
  }

  /** A reference holding a `$(` placeholder, in its tag or as the whole
      image, leaves the line as it is, and is not the cause of a failure. */
  lemma PlaceholderLinesKept(text: string, parses: string -> bool, resolve: string -> Option<string>, out: string)
    requires ProducesTokens(resolve) && RejectsPlaceholders(parses)
    requires ResolveDigest(text, parses, resolve) == Success(out)
    ensures |Lines(out)| == |Lines(text)|
    ensures forall i :: 0 <= i < |Lines(text)| && IsInstruction(TrimmedLine(text, i))
                        && Contains(Extract(TrimmedLine(text, i)).image, Placeholder) ==>
              Lines(out)[i] == TrimmedLine(text, i)
  {
    IneligibleLinesKept(text, parses, resolve, out);
  }

  /** Only the image reference of an eligible line is replaced: the text
      before it (`FROM` and the white space after it, or everything up to and
      including `--from=`) and the text after it (an ` AS <alias>` suffix,
      trailing `COPY` arguments) are kept byte for byte. */
  lemma OnlyImageReplaced(text: string, parses: string -> bool, resolve: string -> Option<string>, out: string)
    requires ProducesTokens(resolve)
    requires ResolveDigest(text, parses, resolve) == Success(out)
    ensures |Lines(out)| == |Lines(text)|
    ensures forall i :: 0 <= i < |Lines(text)| && IsInstruction(TrimmedLine(text, i))
                        && Eligible(Extract(TrimmedLine(text, i)).image, parses) ==>
              var c := Extract(TrimmedLine(text, i));
              && resolve(c.image).Some?
              && Lines(out)[i] == c.prefix + resolve(c.image).value + c.suffix
  {
    LinewiseOutcome(text, parses, resolve, out);
  }

  /** The line holds a reference that the rewrite looks up: an instruction
      whose image reference is eligible. */
  predicate NeedsLookup(raw: string, parses: string -> bool) {
    IsInstruction(TrimSpace(raw)) && Eligible(Extract(TrimSpace(raw)).image, parses)
  }

  /** The registry cannot resolve the reference the line needs looked up. */
  predicate LookupFails(raw: string, parses: string -> bool, resolve: string -> Option<string>) {
    NeedsLookup(raw, parses) && resolve(Extract(TrimSpace(raw)).image).None?
  }

  /** A line fails exactly when its lookup does, and then names its reference. */
  lemma LineFailsOnlyOnLookup(raw: string, parses: string -> bool, resolve: string -> Option<string>)
    ensures RewriteLine(raw, parses, resolve).Failure? <==> LookupFails(raw, parses, resolve)
    ensures LookupFails(raw, parses, resolve) ==>
              RewriteLine(raw, parses, resolve) == Failure(ResolveFailed(Extract(TrimSpace(raw)).image))
  {
  }

  /** The rewrite fails exactly when the registry cannot resolve some eligible
      reference, and then the error names the first such reference; nothing
      else (a malformed reference, a placeholder, a stage name, a document
      without instructions) makes it fail. */
  lemma FailsOnlyOnLookup(text: string, parses: string -> bool, resolve: string -> Option<string>)
    ensures ResolveDigest(text, parses, resolve).Failure? <==>
              exists i :: 0 <= i < |Lines(text)| && LookupFails(Lines(text)[i], parses, resolve)
    ensures ResolveDigest(text, parses, resolve).Failure? ==>
              exists i :: && 0 <= i < |Lines(text)| && LookupFails(Lines(text)[i], parses, resolve)
                          && ResolveDigest(text, parses, resolve).error == ResolveFailed(Extract(TrimmedLine(text, i)).image)
                          && forall j :: 0 <= j < i ==> !LookupFails(Lines(text)[j], parses, resolve)
  {
    var ls := Lines(text);
    RewriteFailsOnlyOnLookup(ls, parses, resolve);
    var r := Rewrite(ls, parses, resolve);
    if r.Failure? {
      var i :| && 0 <= i < |ls|
               && RewriteLine(ls[i], parses, resolve) == Failure(r.error)
               && forall j :: 0 <= j < i ==> RewriteLine(ls[j], parses, resolve).Success?;
      LineFailsOnlyOnLookup(ls[i], parses, resolve);
      assert ResolveDigest(text, parses, resolve).error == r.error == ResolveFailed(Extract(TrimmedLine(text, i)).image);
    }
  }

  /** The rewrite of a list of lines fails exactly when the lookup of some
      line's eligible reference fails, and no line before the first failed
      one needs a lookup that fails. */
  lemma RewriteFailsOnlyOnLookup(ls: seq<string>, parses: string -> bool, resolve: string -> Option<string>)
    ensures Rewrite(ls, parses, resolve).Failure? <==> exists i :: 0 <= i < |ls| && LookupFails(ls[i], parses, resolve)
    ensures forall i :: 0 <= i < |ls| ==>
              (RewriteLine(ls[i], parses, resolve).Failure? <==> LookupFails(ls[i], parses, resolve))
  {
    forall i | 0 <= i < |ls|
      ensures RewriteLine(ls[i], parses, resolve).Failure? <==> LookupFails(ls[i], parses, resolve)
    {
      LineFailsOnlyOnLookup(ls[i], parses, resolve);
    }
  }

  /** Two registries that agree on the reference a line needs looked up give
      the same rewrite of that line. */
  lemma LineLooksUpOnlyEligible(raw: string, parses: string -> bool, resolve: string -> Option<string>, other: string -> Option<string>)
    requires NeedsLookup(raw, parses) ==> resolve(Extract(TrimSpace(raw)).image) == other(Extract(TrimSpace(raw)).image)
    ensures RewriteLine(raw, parses, resolve) == RewriteLine(raw, parses, other)
  {
  }

  /** The registry is asked only about eligible references: two registries
      that agree on the eligible references of a document give the same
      rewrite of it. */
  lemma OnlyEligibleLookedUp(text: string, parses: string -> bool, resolve: string -> Option<string>, other: string -> Option<string>)
    requires forall i :: 0 <= i < |Lines(text)| && NeedsLookup(Lines(text)[i], parses) ==>
               resolve(Extract(TrimmedLine(text, i)).image) == other(Extract(TrimmedLine(text, i)).image)
    ensures ResolveDigest(text, parses, resolve) == ResolveDigest(text, parses, other)
  {
    var ls := Lines(text);
    forall i | 0 <= i < |ls|
      ensures RewriteLine(ls[i], parses, resolve) == RewriteLine(ls[i], parses, other)
    {
      LineLooksUpOnlyEligible(ls[i], parses, resolve, other);
    }
    SameStepsSameTraversal(ls, parses, resolve, other);
  }

  lemma SameStepsSameTraversal(ls: seq<string>, parses: string -> bool, resolve: string -> Option<string>, other: string -> Option<string>)
    requires forall i :: 0 <= i < |ls| ==> RewriteLine(ls[i], parses, resolve) == RewriteLine(ls[i], parses, other)
    ensures Rewrite(ls, parses, resolve) == Rewrite(ls, parses, other)
  {
    var a := Rewrite(ls, parses, resolve);
    var b := Rewrite(ls, parses, other);
    assert a.Success? <==> b.Success?;
    if a.Success? {
      assert forall i :: 0 <= i < |ls| ==> a.value[i] == b.value[i];
      assert a.value == b.value;
    } else {
      var i :| 0 <= i < |ls| && RewriteLine(ls[i], parses, resolve) == Failure(a.error)
               && forall j :: 0 <= j < i ==> RewriteLine(ls[j], parses, resolve).Success?;
      var k :| 0 <= k < |ls| && RewriteLine(ls[k], parses, other) == Failure(b.error)
               && forall j :: 0 <= j < k ==> RewriteLine(ls[j], parses, other).Success?;
      assert i == k;
    }
  }

  /** The document is rewritten line by line: a first line and its newline
      followed by the rest of a document become the first line's rewrite, a
      newline and the rewrite of the rest. */
  lemma ResolveDigestCons(l: string, rest: string, parses: string -> bool, resolve: string -> Option<string>, o: string, want: string)
    requires '\n' !in l
    requires RewriteLine(l, parses, resolve) == Success(o)
    requires ResolveDigest(rest, parses, resolve) == Success(want)
    ensures ResolveDigest(l + "\n" + rest, parses, resolve) == Success(o + "\n" + want)
  {
    LinesCons(l, rest);
    var ls := Lines(rest);
    var outs := Rewrite(ls, parses, resolve).value;
    var all := [l] + ls;
    assert Lines(l + "\n" + rest) == all;
    var r := Rewrite(all, parses, resolve);
    assert all[0] == l;
    assert forall i :: 0 <= i < |ls| ==> all[i + 1] == ls[i];
    assert r.Success?;
    assert r.value == [o] + outs;
    assert ([o] + outs)[1..] == outs;
  }

  /** A document whose only line has no final newline is rewritten as if the
      newline were there. */
  lemma ResolveDigestLast(l: string, parses: string -> bool, resolve: string -> Option<string>, o: string)
    requires l != [] && '\n' !in l
    requires RewriteLine(l, parses, resolve) == Success(o)
    ensures ResolveDigest(l, parses, resolve) == Success(o + "\n")
  {
    LinesLast(l);
    var ls := Lines(l);
    assert ls[0] == l && |ls| == 1;
    var r := Rewrite(ls, parses, resolve);
    assert RewriteLine(ls[0], parses, resolve) == Success(o);
    assert r.Success? && r.value[0] == o;
    assert r.value == [o];
    assert Unlines([o]) == o + "\n" + Unlines([]);
    assert Unlines([o]) == o + "\n";
    assert ResolveDigest(l, parses, resolve) == Success(Unlines(r.value));
  }

  /** A document of one line and its newline is that line's rewrite and a
      newline. */
  lemma ResolveDigestTerminated(l: string, parses: string -> bool, resolve: string -> Option<string>, o: string)
    requires '\n' !in l
    requires RewriteLine(l, parses, resolve) == Success(o)
    ensures ResolveDigest(l + "\n", parses, resolve) == Success(o + "\n")
  {
    assert Lines("") == [];
    assert Rewrite([], parses, resolve) == Success([]);
    assert ResolveDigest("", parses, resolve) == Success("");
    ResolveDigestCons(l, "", parses, resolve, o, "");
    assert l + "\n" + "" == l + "\n";
    assert o + "\n" + "" == o + "\n";
  }

  /** A trimmed line that is neither `FROM` nor `COPY --from=` is kept. */
  lemma TrimmedOtherLineKept(raw: string, parses: string -> bool, resolve: string -> Option<string>)
    requires Trimmed(raw) && !IsInstruction(raw)
    ensures RewriteLine(raw, parses, resolve) == Success(raw)
  {
    TrimSpaceOfTrimmed(raw);
  }

  /** A document with no `FROM` or `COPY --from=` line and no stray white
      space comes back unchanged, with a final newline added if it lacked one. */
  lemma NoInstructionsNormalised(text: string, parses: string -> bool, resolve: string -> Option<string>)
    requires forall i :: 0 <= i < |Lines(text)| ==> Trimmed(Lines(text)[i]) && !IsInstruction(Lines(text)[i])
    ensures ResolveDigest(text, parses, resolve)
            == Success(if text == [] || text[|text| - 1] == '\n' then text else text + "\n")
  {
    var ls := Lines(text);
    forall i | 0 <= i < |ls|
      ensures RewriteLine(ls[i], parses, resolve) == Success(ls[i])
    {
      TrimmedOtherLineKept(ls[i], parses, resolve);
    }
    var r := Rewrite(ls, parses, resolve);
    assert r.Success?;
    assert r.value == ls;
    assert ResolveDigest(text, parses, resolve) == Success(Unlines(ls));
    UnlinesOfLines(text);
  }

  /** Rewriting a line again, with a registry that answers with pinned
      references, leaves it as it is. */
  lemma RewriteLineIdempotent(raw: string, parses: string -> bool, resolve: string -> Option<string>)
    requires PinsDigests(resolve)
    requires RewriteLine(raw, parses, resolve).Success?
    ensures var out := RewriteLine(raw, parses, resolve).value;
            RewriteLine(out, parses, resolve) == Success(out)
  {
    var line := TrimSpace(raw);
    RewriteLineTrims(raw, parses, resolve);
    TrimSpaceOfTrimmed(line);
    assert TrimSpace(line) == line;
    if IsInstruction(line) && Eligible(Extract(line).image, parses) {
      var c := Extract(line);
      InstructionOutcome(line, parses, resolve);
      assert resolve(c.image).Some?;
      var ref := resolve(c.image).value;
      assert RewriteLine(raw, parses, resolve) == Success(Splice(c, ref));
      SplicedLineKept(line, ref, parses, resolve);
    } else {
      assert RewriteLine(raw, parses, resolve) == Success(line);
    }
  }

  /** A line that already holds a pinned reference where its image goes is
      left alone. */
  lemma SplicedLineKept(line: string, ref: string, parses: string -> bool, resolve: string -> Option<string>)
    requires Trimmed(line) && IsInstruction(line) && IsToken(ref) && Contains(ref, DigestMarker)
    ensures var out := Splice(Extract(line), ref);
            RewriteLine(out, parses, resolve) == Success(out)
  {
    var out := Splice(Extract(line), ref);
    SpliceExtract(line, ref);
    TrimSpaceOfTrimmed(out);
  }

  /** Resolving a document that has already been resolved changes nothing:
      every reference the first pass wrote is pinned, and every other line
      was already left alone. */
  lemma {:induction false} Idempotent(text: string, parses: string -> bool, resolve: string -> Option<string>, out: string)
    requires PinsDigests(resolve)
    requires ResolveDigest(text, parses, resolve) == Success(out)
    ensures ResolveDigest(out, parses, resolve) == Success(out)
  {
    LinewiseOutcome(text, parses, resolve, out);
    var ls := Lines(text);
    var outs := Lines(out);
    forall i | 0 <= i < |outs|
      ensures RewriteLine(outs[i], parses, resolve) == Success(outs[i])
    {
      RewriteLineIdempotent(ls[i], parses, resolve);
    }
    var again := Rewrite(outs, parses, resolve).value;
    assert again == outs;
  }
}
