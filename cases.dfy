/** The nine documents of the resolveDigest test table and what each
    becomes. Each document is built from its lines, nested to the right
    (`line + "\n" + rest`), so each case reads as one line-by-line step
    of the traversal. */
module ResolveCases {
  import opened Wrappers
  import opened Text
  import opened Dockerfile
  import opened ResolveProperties
  import opened ResolveTable

  // The pinned lines.
  const PinnedFromAlpine313: string := FromKeyword + " " + Alpine313
  const PinnedCopyAlpine313: string := "COPY " + FromFlag + Alpine313
  const PinnedFromGolangBuilder: string := FromKeyword + " " + GolangLatest + AsBuilder
  const PinnedFromAlpineLatest: string := FromKeyword + " " + AlpineLatest
  const PinnedCopyNginx: string := "COPY " + FromFlag + NginxLatest + NginxPaths

  /** "happy alpine": a single tagged FROM is pinned and the output gains a
      final newline. */
  lemma HappyAlpine()
    ensures ResolveDigest(FromAlpine313, FakeParses, FakeResolve) == Success(PinnedFromAlpine313 + "\n")
  {
    FromAlpine313Pinned();
    FromLinesSingle();
    CopyLinesSingle();
    OtherLinesSingle();
    ResolveDigestLast(FromAlpine313, FakeParses, FakeResolve, PinnedFromAlpine313);
  }

  /** "happy alpine trim": the blanks around the line go, the blanks after
      the keyword stay. */
  lemma HappyAlpineTrim()
    ensures ResolveDigest(PaddedFromAlpine313, FakeParses, FakeResolve)
            == Success(FromKeyword + "    " + Alpine313 + "\n")
  {
    PaddedFromAlpine313Pinned();
    FromLinesSingle();
    CopyLinesSingle();
    OtherLinesSingle();
    ResolveDigestLast(PaddedFromAlpine313, FakeParses, FakeResolve, FromKeyword + "    " + Alpine313);
  }

  const HappyAlpineCopyIn: string := FromAlpine313 + "\n" + (CopyAlpine313 + "\n")
  const HappyAlpineCopyOut: string := PinnedFromAlpine313 + "\n" + (PinnedCopyAlpine313 + "\n")

  /** "happy alpine copy": both the FROM and the `COPY --from=` reference are
      pinned. */
  lemma HappyAlpineCopy()
    ensures ResolveDigest(HappyAlpineCopyIn, FakeParses, FakeResolve) == Success(HappyAlpineCopyOut)
  {
    FromLinesSingle();
    CopyLinesSingle();
    OtherLinesSingle();
    FromAlpine313Pinned();
    CopyAlpine313Pinned();
    ResolveDigestTerminated(CopyAlpine313, FakeParses, FakeResolve, PinnedCopyAlpine313);
    ResolveDigestCons(FromAlpine313, CopyAlpine313 + "\n", FakeParses, FakeResolve,
                      PinnedFromAlpine313, PinnedCopyAlpine313 + "\n");
  }

  /** "alpine with digest": a reference already pinned is kept as it is. */
  lemma AlpineWithDigest()
    ensures ResolveDigest(FromPinnedAlpine, FakeParses, FakeResolve) == Success(FromPinnedAlpine + "\n")
  {
    FromPinnedAlpineKept();
    FromLinesSingle();
    CopyLinesSingle();
    OtherLinesSingle();
    ResolveDigestLast(FromPinnedAlpine, FakeParses, FakeResolve, FromPinnedAlpine);
  }

  const MultiLineIn: string := FromAlpine313 + "\n" + (CopyDot + "\n" + ("" + "\n" + RunLs))
  const MultiLineOut: string := PinnedFromAlpine313 + "\n" + (CopyDot + "\n" + ("" + "\n" + (RunLs + "\n")))

  /** "multi-line": other instructions and the empty line are copied. */
  lemma MultiLine()
    ensures ResolveDigest(MultiLineIn, FakeParses, FakeResolve) == Success(MultiLineOut)
  {
    FromLinesSingle();
    CopyLinesSingle();
    OtherLinesSingle();
    FromAlpine313Pinned();
    CopyDotKept();
    EmptyLineKept();
    RunLsKept();
    ResolveDigestLast(RunLs, FakeParses, FakeResolve, RunLs);
    ResolveDigestCons("", RunLs, FakeParses, FakeResolve, "", RunLs + "\n");
    ResolveDigestCons(CopyDot, "" + "\n" + RunLs, FakeParses, FakeResolve, CopyDot, "" + "\n" + (RunLs + "\n"));
    ResolveDigestCons(FromAlpine313, CopyDot + "\n" + ("" + "\n" + RunLs), FakeParses, FakeResolve,
                      PinnedFromAlpine313, CopyDot + "\n" + ("" + "\n" + (RunLs + "\n")));
  }

  const SkipScratchIn: string := FromAlpine313 + "\n" + (FromScratch + "\n" + RunLs)
  const SkipScratchOut: string := PinnedFromAlpine313 + "\n" + (FromScratch + "\n" + (RunLs + "\n"))

  /** "skip scratch": `FROM scratch` is not looked up. */
  lemma SkipScratch()
    ensures ResolveDigest(SkipScratchIn, FakeParses, FakeResolve) == Success(SkipScratchOut)
  {
    FromLinesSingle();
    CopyLinesSingle();
    OtherLinesSingle();
    FromAlpine313Pinned();
    FromScratchKept();
    RunLsKept();
    ResolveDigestLast(RunLs, FakeParses, FakeResolve, RunLs);
    ResolveDigestCons(FromScratch, RunLs, FakeParses, FakeResolve, FromScratch, RunLs + "\n");
    ResolveDigestCons(FromAlpine313, FromScratch + "\n" + RunLs, FakeParses, FakeResolve,
                      PinnedFromAlpine313, FromScratch + "\n" + (RunLs + "\n"));
  }

  const InvalidImageRefDoc: string := FromPlaceholderTag + "\n" + (FromPlaceholderImage + "\n")

  /** "should not break invalid image ref": references that do not parse are
      copied, and the document comes back unchanged. */
  lemma InvalidImageRef()
    ensures ResolveDigest(InvalidImageRefDoc, FakeParses, FakeResolve) == Success(InvalidImageRefDoc)
  {
    FromLinesSingle();
    CopyLinesSingle();
    OtherLinesSingle();
    FromPlaceholdersKept();
    ResolveDigestTerminated(FromPlaceholderImage, FakeParses, FakeResolve, FromPlaceholderImage);
    ResolveDigestCons(FromPlaceholderTag, FromPlaceholderImage + "\n", FakeParses, FakeResolve,
                      FromPlaceholderTag, FromPlaceholderImage + "\n");
  }

  // The multi-stage build: its tail from the `WORKDIR` line on, and the
  // whole document.
  const StageTailIn: string := Workdir + "\n" + (CopyFromBuilder + "\n" + Cmd)
  const StageTailOut: string := Workdir + "\n" + (CopyFromBuilder + "\n" + (Cmd + "\n"))
  const MultiStageIn: string :=
    FromGolangBuilder + "\n" + (RunBuild + "\n" + ("" + "\n" + (FromAlpineLatest + "\n" + StageTailIn)))
  const MultiStageOut: string :=
    PinnedFromGolangBuilder + "\n" + (RunBuild + "\n" + ("" + "\n" + (PinnedFromAlpineLatest + "\n" + StageTailOut)))

  /** The last three lines of the multi-stage build are copied: `builder`
      names a stage, not an image. */
  lemma StageTail()
    ensures ResolveDigest(StageTailIn, FakeParses, FakeResolve) == Success(StageTailOut)
  {
    FromLinesSingle();
    CopyLinesSingle();
    OtherLinesSingle();
    WorkdirKept();
    CopyFromBuilderKept();
    CmdKept();
    ResolveDigestLast(Cmd, FakeParses, FakeResolve, Cmd);
    ResolveDigestCons(CopyFromBuilder, Cmd, FakeParses, FakeResolve, CopyFromBuilder, Cmd + "\n");
    ResolveDigestCons(Workdir, CopyFromBuilder + "\n" + Cmd, FakeParses, FakeResolve,
                      Workdir, CopyFromBuilder + "\n" + (Cmd + "\n"));
  }

  /** "should not break for invalid --from image reference": both stages'
      base images are pinned, the `COPY --from=builder` line is copied. */
  lemma InvalidFromImageRef()
    ensures ResolveDigest(MultiStageIn, FakeParses, FakeResolve) == Success(MultiStageOut)
  {
    StageTail();
    FromLinesSingle();
    CopyLinesSingle();
    OtherLinesSingle();
    FromGolangBuilderPinned();
    RunBuildKept();
    EmptyLineKept();
    FromAlpineLatestPinned();
    ResolveDigestCons(FromAlpineLatest, StageTailIn, FakeParses, FakeResolve, PinnedFromAlpineLatest, StageTailOut);
    var rest := FromAlpineLatest + "\n" + StageTailIn;
    var restOut := PinnedFromAlpineLatest + "\n" + StageTailOut;
    ResolveDigestCons("", rest, FakeParses, FakeResolve, "", restOut);
    ResolveDigestCons(RunBuild, "" + "\n" + rest, FakeParses, FakeResolve, RunBuild, "" + "\n" + restOut);
    ResolveDigestCons(FromGolangBuilder, RunBuild + "\n" + ("" + "\n" + rest), FakeParses, FakeResolve,
                      PinnedFromGolangBuilder, RunBuild + "\n" + ("" + "\n" + restOut));
  }

  /** "should not break for invalid --from image reference with digest": a
      `COPY --from=` naming a known tag is pinned, its paths kept. */
  lemma InvalidFromImageRefWithDigest()
    ensures ResolveDigest(CopyNginx, FakeParses, FakeResolve) == Success(PinnedCopyNginx + "\n")
  {
    CopyNginxPinned();
    FromLinesSingle();
    CopyLinesSingle();
    OtherLinesSingle();
    ResolveDigestLast(CopyNginx, FakeParses, FakeResolve, PinnedCopyNginx);
  }
}
