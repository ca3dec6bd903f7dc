# resolveDigest — pinning the image references of a Dockerfile

A Dafny model of `resolveDigest`, the function behind `cosign dockerfile
resolve`. It reads a Dockerfile and makes one left-to-right pass over its
lines. Each line is trimmed of surrounding white space and then classified
as one of:

- a `FROM` line;
- a `COPY` line with a `--from=` flag;
- any other line.

In an instruction line the image reference is the token after `FROM` and
its white space, or the token right after `--from=`. That reference is
looked up when it is *eligible*:

- it is not `scratch`;
- it is not already pinned to a digest (`@sha256:`);
- it parses as an image reference.

The registry's digest-qualified answer replaces that token and nothing
else. Every other line, and every instruction whose reference is not
eligible, is copied (trimmed). The output is the lines in order, each
followed by exactly one newline. A lookup that fails fails the whole call,
and no output is produced.

The behaviour is pinned down by the case table of `Test_resolveDigest` in
`cmd/cosign/cli/dockerfile/resolve_test.go`. The implementation file is not
part of this model. The model follows that table and the behaviour
described for the command.

Files:

- `wrappers.dfy`: the `Option` and `Result` datatypes.
- `text.dfy`: the Go library behaviour the rewrite relies on:
  - `strings.TrimSpace`, with the `unicode.IsSpace` set;
  - substring search;
  - splitting into lines at every newline, as `bufio.ScanLines` does,
    except that a carriage return ending a line is kept by the split and
    removed by the trim that follows; and joining lines with one newline
    each.
- `dockerfile.dfy`: classification, extraction of the image token, the
  splice, the line rewrite, the traversal that stops at the first failure,
  and `ResolveDigest`.
- `properties.dfy`: what the rewrite promises for every document:
  - line count and order;
  - newline normalisation;
  - which lines are kept;
  - what surrounds a pinned reference;
  - when the call fails;
  - that the registry is only asked about eligible references;
  - idempotence.
- `resolve_table.dfy`: the table's fake registry and fake reference parser,
  its lines, and what each line becomes.
- `cases.dfy`: the nine documents of the table and their expected outputs.

The image-reference parser and the registry are collaborators outside the
model. The rewrite takes them as parameters:

- `parses: string -> bool` stands for the parser;
- `resolve: string -> Option<string>` stands for the registry, where `None`
  is a failed lookup.

Properties that need facts about them say so in their `requires`:

- `ProducesTokens`: the registry answers with a single token;
- `PinsDigests`: that token holds `@sha256:`;
- `RejectsPlaceholders`: tokens holding `$(` do not parse.

Two modelling choices fill gaps the table leaves open:

- A line counts as a `COPY --from=` instruction when it starts with the
  keyword `COPY` followed by white space and contains `--from=`; the token
  after the first `--from=` is the reference. A line that holds `--from=`
  but starts with neither `FROM` nor `COPY` is copied; a `FROM` line is a
  `FROM` instruction whatever flags it holds. The table only has `COPY`
  lines with the flag, so the keyword is required rather than the bare
  substring.
- Every line is trimmed, not only instruction lines. The table's trim case
  (`resolve_test.go:37-43`) shows it for a `FROM` line, and no case has an
  untrimmed line of another kind. A carriage return before a newline is
  white space. `bufio.ScanLines` drops it already; the model's line split
  keeps it and the trim drops it, so the rewritten line is the same.

## Model

| member | source | states |
|---|---|---|
| Text.TrimSpace | cmd/cosign/cli/dockerfile/resolve_test.go:37-43 | the result has no white space at either end |
| Text.TrimSpaceInfix | cmd/cosign/cli/dockerfile/resolve_test.go:37-43 | the input is the result with white space only before and after it, so nothing inside the line is touched |
| Text.TrimSpaceAround | cmd/cosign/cli/dockerfile/resolve_test.go:37-43 | white space around a trimmed core is dropped and the core is kept whole, including the blanks after `FROM` |
| Text.TrimSpaceOfTrimmed | cmd/cosign/cli/dockerfile/resolve_test.go:30-36 | a line without surrounding white space is trimmed to itself |
| Text.LinesOfUnlines | cmd/cosign/cli/dockerfile/resolve_test.go:61-73 | joining newline-free lines with one newline each and splitting again gives the same lines, count and order |
| Text.UnlinesOfLines | cmd/cosign/cli/dockerfile/resolve_test.go:30-36 | splitting a document and joining it back adds a final newline when one is missing and changes nothing else; a final newline does not become an empty line |
| Text.LinesCons | cmd/cosign/cli/dockerfile/resolve_test.go:44-53 | a line, a newline and a rest split into that line followed by the rest's lines |
| Text.LinesLast | cmd/cosign/cli/dockerfile/resolve_test.go:54-60 | a last line without a final newline is still one line |
| Text.Lines | cmd/cosign/cli/dockerfile/resolve_test.go:61-73 | no line holds a newline; its partners `LinesOfUnlines`, `LinesCons` and `LinesLast` state how a document is cut, with no empty line after a final newline |
| Text.Unlines | cmd/cosign/cli/dockerfile/resolve_test.go:30-36 | the joined text is empty exactly when there are no lines, and otherwise ends with a newline; `UnlinesOfLines` and `LinesOfUnlines` are its round trips with `Lines` |
| Text.IndexOf | cmd/cosign/cli/dockerfile/resolve_test.go:116 | the index found is an occurrence with none before it, and no index is found only when there is no occurrence at all |
| Dockerfile.Classify | cmd/cosign/cli/dockerfile/resolve_test.go:97-116 | a line starting with `FROM` and white space is a `FROM` instruction; a `COPY --from=` instruction starts with `COPY` and holds `--from=`; either keyword is followed by white space. Its partners are `ExtractFromLine` and `ExtractCopyLine` over lines built from pieces, and `TrimmedOtherLineKept` for every other trimmed line |
| Dockerfile.Cut | cmd/cosign/cli/dockerfile/resolve_test.go:97 | the prefix is the line up to the cut, the three pieces give the line back, the token holds no white space and the suffix starts with white space or is empty |
| Dockerfile.Extract | cmd/cosign/cli/dockerfile/resolve_test.go:95-120 | the prefix, image and suffix put together give the line back; the image holds no white space and the suffix starts with white space or is empty; a `FROM` prefix is the keyword and white space, and a `COPY` prefix ends at the first `--from=` |
| Dockerfile.Splice | cmd/cosign/cli/dockerfile/resolve_test.go:104 | the new line is as long as the prefix, the answer and the suffix together; `SpliceParts` states its pieces and `SpliceExtract` that cutting it again finds the answer between the same prefix and suffix |
| Dockerfile.Eligible | cmd/cosign/cli/dockerfile/resolve_test.go:54-94 | which references are looked up: not `scratch`, not already pinned with `@sha256:`, and accepted by the reference parser; its partners `ScratchLinesKept`, `PinnedLinesKept`, `PlaceholderLinesKept` and `OnlyEligibleLookedUp` state that nothing else is looked up or changed |
| Dockerfile.RewriteTrimmed | cmd/cosign/cli/dockerfile/resolve_test.go:30-120 | the rewrite of one trimmed line; its partners `FromLineOutcome`, `CopyLineOutcome`, `TrimmedOtherLineKept`, `IneligibleLinesKept`, `OnlyImageReplaced` and `LineFailsOnlyOnLookup` state what becomes of each kind of line |
| Dockerfile.RewriteLine | cmd/cosign/cli/dockerfile/resolve_test.go:37-43 | the rewrite of one raw line; its partners `RewriteLineTrims` (surrounding white space makes no difference), `RewriteLineHasNoNewline` and `RewriteLineIdempotent` state how it behaves |
| Dockerfile.Traverse | cmd/cosign/cli/dockerfile/resolve_test.go:122-128 | succeeds exactly when every line does, with one result per line in order; otherwise fails with the error of the first failing line |
| Dockerfile.Rewrite | cmd/cosign/cli/dockerfile/resolve_test.go:122-128 | one output line per input line, each the rewrite of its input line; the first failed line's error otherwise |
| Dockerfile.ResolveDigest | cmd/cosign/cli/dockerfile/resolve_test.go:124-128 | succeeds exactly when every line of the document can be rewritten |
| ResolveProperties.CutOfJoin | cmd/cosign/cli/dockerfile/resolve_test.go:97 | cutting where a token starts finds that token and keeps the text before and after it |
| ResolveProperties.ExtractFromLine | cmd/cosign/cli/dockerfile/resolve_test.go:97 | `FROM`, white space, an image and an optional ` AS` suffix are classified as `FROM` and cut into exactly those pieces |
| ResolveProperties.ExtractCopyLine | cmd/cosign/cli/dockerfile/resolve_test.go:116 | `COPY --from=`, an image and optional paths are classified as `COPY --from=` and cut into exactly those pieces |
| ResolveProperties.RewriteLineTrims | cmd/cosign/cli/dockerfile/resolve_test.go:37-43 | surrounding white space makes no difference to how a line is rewritten |
| ResolveProperties.FromLineOutcome | cmd/cosign/cli/dockerfile/resolve_test.go:97 | a `FROM` line with white space, an image and an optional suffix keeps the keyword, the white space and the suffix, and only its image can change |
| ResolveProperties.CopyLineOutcome | cmd/cosign/cli/dockerfile/resolve_test.go:116-117 | a `COPY --from=` line keeps the flag and the paths after the image, and only its image can change |
| ResolveProperties.SpliceExtract | cmd/cosign/cli/dockerfile/resolve_test.go:54-60 | a line with a new token spliced in is still trimmed, of the same kind, and cut around the new token with the same prefix and suffix |
| ResolveProperties.RewriteLineHasNoNewline | cmd/cosign/cli/dockerfile/resolve_test.go:44-53 | a rewritten line holds no newline when the registry answers with single tokens |
| ResolveProperties.LinewiseOutcome | cmd/cosign/cli/dockerfile/resolve_test.go:61-73 | the output has as many lines as the input, in order; output line `i` is the rewrite of input line `i`; the output ends every line with one newline |
| ResolveProperties.NonInstructionLinesKept | cmd/cosign/cli/dockerfile/resolve_test.go:61-73 | lines that are neither `FROM` nor `COPY --from=` (blank, `COPY . .`, `RUN`, `WORKDIR`, `CMD`) keep their trimmed content and position |
| ResolveProperties.IneligibleLinesKept | cmd/cosign/cli/dockerfile/resolve_test.go:85-94 | an instruction whose reference is not eligible is kept as it is, wherever it stands |
| ResolveProperties.ScratchLinesKept | cmd/cosign/cli/dockerfile/resolve_test.go:74-84 | `FROM scratch` is never rewritten, even when other lines are |
| ResolveProperties.PinnedLinesKept | cmd/cosign/cli/dockerfile/resolve_test.go:54-60 | a reference already holding `@sha256:` is kept as it is |
| ResolveProperties.PlaceholderLinesKept | cmd/cosign/cli/dockerfile/resolve_test.go:85-94 | a reference holding `$(`, in the tag or as the whole image, leaves its line unchanged |
| ResolveProperties.OnlyImageReplaced | cmd/cosign/cli/dockerfile/resolve_test.go:104 | an eligible reference was resolved, and its line is the old prefix, the registry's answer and the old suffix (` AS builder`, `COPY` paths) byte for byte |
| ResolveProperties.LineFailsOnlyOnLookup | cmd/cosign/cli/dockerfile/resolve_test.go:125-128 | a line fails exactly when the lookup of its eligible reference fails, and the error names that reference (the design's fatal path; no case of the table expects an error) |
| ResolveProperties.FailsOnlyOnLookup | cmd/cosign/cli/dockerfile/resolve_test.go:125-128 | the call fails exactly when some eligible reference cannot be resolved, and the error names the first such one; references the parser rejects (placeholders, and stage names such as `builder`) never cause a failure (the design's fatal path; no case of the table expects an error) |
| ResolveProperties.LineLooksUpOnlyEligible | cmd/cosign/cli/dockerfile/resolve_test.go:74-84 | two registries that agree on a line's eligible reference rewrite it the same way |
| ResolveProperties.OnlyEligibleLookedUp | cmd/cosign/cli/dockerfile/resolve_test.go:74-94 | the registry is asked only about eligible references: registries that agree on those give the same result |
| ResolveProperties.SameStepsSameTraversal | cmd/cosign/cli/dockerfile/resolve_test.go:122-128 | lines rewritten alike by two registries give the same whole rewrite |
| ResolveProperties.ResolveDigestCons | cmd/cosign/cli/dockerfile/resolve_test.go:44-53 | a first line, a newline and the rest become the first line's rewrite, a newline and the rest's rewrite |
| ResolveProperties.ResolveDigestLast | cmd/cosign/cli/dockerfile/resolve_test.go:30-36 | a one-line document without a final newline becomes the line's rewrite and a newline |
| ResolveProperties.ResolveDigestTerminated | cmd/cosign/cli/dockerfile/resolve_test.go:85-94 | a one-line document with its final newline becomes the line's rewrite and one newline, with no extra empty line |
| ResolveProperties.TrimmedOtherLineKept | cmd/cosign/cli/dockerfile/resolve_test.go:64-70 | a trimmed line that is not an instruction is copied as it is |
| ResolveProperties.NoInstructionsNormalised | cmd/cosign/cli/dockerfile/resolve_test.go:61-73 | a document with no instructions and no stray white space comes back unchanged, with a final newline added if it lacked one |
| ResolveProperties.RewriteLineIdempotent | cmd/cosign/cli/dockerfile/resolve_test.go:54-60 | a rewritten line is left alone by a second rewrite when the registry answers with pinned references |
| ResolveProperties.SplicedLineKept | cmd/cosign/cli/dockerfile/resolve_test.go:54-60 | a line holding a pinned reference where its image goes is left alone |
| ResolveProperties.Idempotent | cmd/cosign/cli/dockerfile/resolve_test.go:54-60 | resolving an already resolved document changes nothing |
| ResolveTable.KnownTag | cmd/cosign/cli/dockerfile/resolve_test.go:32-33 | a tag the fake registry knows, without a digest or a placeholder, is an eligible token |
| ResolveTable.PinnedAlpineIneligible | cmd/cosign/cli/dockerfile/resolve_test.go:56 | `alpine@sha256:…` is a token that is not looked up |
| ResolveTable.PlaceholdersIneligible | cmd/cosign/cli/dockerfile/resolve_test.go:87-88 | `alpine:$(TAG)` and `$(IMAGE)` are tokens that are not looked up |
| ResolveTable.PaddedFromAlpine313Pinned | cmd/cosign/cli/dockerfile/resolve_test.go:39-40 | the padded `FROM` line loses its outer blanks, keeps the four after `FROM`, and its image is pinned |
| ResolveTable.FromGolangBuilderPinned | cmd/cosign/cli/dockerfile/resolve_test.go:97-104 | `FROM golang:latest AS builder` is pinned and keeps ` AS builder` |
| ResolveTable.CopyFromBuilderKept | cmd/cosign/cli/dockerfile/resolve_test.go:102-109 | `COPY --from=builder …` names a stage and is copied unchanged |
| ResolveTable.CopyNginxPinned | cmd/cosign/cli/dockerfile/resolve_test.go:116-117 | `COPY --from=nginx:latest` is pinned and keeps its two paths |
| ResolveTable.FromScratchKept | cmd/cosign/cli/dockerfile/resolve_test.go:77-80 | `FROM scratch` is copied unchanged |
| ResolveCases.HappyAlpine | cmd/cosign/cli/dockerfile/resolve_test.go:30-36 | "happy alpine": the one `FROM` line is pinned and gains a final newline |
| ResolveCases.HappyAlpineTrim | cmd/cosign/cli/dockerfile/resolve_test.go:37-43 | "happy alpine trim": outer blanks dropped, inner blanks kept, image pinned |
| ResolveCases.HappyAlpineCopy | cmd/cosign/cli/dockerfile/resolve_test.go:44-53 | "happy alpine copy": both the `FROM` and the `COPY --from=` references are pinned, no extra line |
| ResolveCases.AlpineWithDigest | cmd/cosign/cli/dockerfile/resolve_test.go:54-60 | "alpine with digest": the pinned line comes back unchanged with a newline |
| ResolveCases.MultiLine | cmd/cosign/cli/dockerfile/resolve_test.go:61-73 | "multi-line": `COPY . .`, the blank line and `RUN ls` are copied in place |
| ResolveCases.SkipScratch | cmd/cosign/cli/dockerfile/resolve_test.go:74-84 | "skip scratch": `FROM scratch` is not looked up while the line before it is pinned |
| ResolveCases.InvalidImageRef | cmd/cosign/cli/dockerfile/resolve_test.go:85-94 | "should not break invalid image ref": placeholder references leave the document unchanged, and the call succeeds |
| ResolveCases.StageTail | cmd/cosign/cli/dockerfile/resolve_test.go:101-110 | the `WORKDIR`, `COPY --from=builder` and `CMD` lines are copied and gain a final newline |
| ResolveCases.InvalidFromImageRef | cmd/cosign/cli/dockerfile/resolve_test.go:95-113 | "should not break for invalid --from image reference": both base images are pinned, the stage copy is kept, and the call succeeds |
| ResolveCases.InvalidFromImageRefWithDigest | cmd/cosign/cli/dockerfile/resolve_test.go:114-120 | "should not break for invalid --from image reference with digest": the `COPY --from=` reference is pinned and its paths kept |

## Left out

- The registry lookup is network I/O. It is the parameter `resolve`, and
  the table's four digests are data of the fake registry `FakeResolve`.
  Computing them is not modelled.
- The image-reference grammar and its name normalisation (for example
  `index.docker.io/library/`) belong to a foreign library. Validity is the
  parameter `parses`. The fake parser `FakeParses` rejects tokens holding
  `$(` and the bare stage name `builder`. This is a property of the fake
  only.
- How the stage name in `COPY --from=builder` is skipped. The model
  rejects it before any lookup: it is not accepted by `parses`, so the
  line is not eligible. A failed lookup that is tolerated is not modelled.
  With a parser that accepted `builder` and a registry that did not know
  it, the model would fail the whole call with `ResolveFailed`.
- The fatal path follows the command's design (an eligible reference the
  registry cannot resolve ends the call with an error and no output):
  `ResolveFailed`, `LookupFails` and `FailsOnlyOnLookup` state it. No case
  of the table expects an error, so no case shows it.
- Whether the keywords `FROM` and `COPY` are matched case-insensitively. No
  case exercises it, so the model matches the upper-case spelling only.
- The fatal path's exact error value. No case expects an error. The model
  names the unresolved image in `ResolveFailed` and produces no output.
- The reader and `bytes.Buffer` plumbing, the CLI, file I/O and the test
  driver (`t.Run`, `reflect.DeepEqual`).
- `bufio.Scanner`'s maximum token size. A line longer than 64 KiB stops the
  scan with an error in Go; the model has no length limit.
- Text is modelled as a sequence of characters, not of UTF-8 bytes. White
  space is the `unicode.IsSpace` set, with characters standing for code
  points.
