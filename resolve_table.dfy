/** The cases of the resolveDigest test table, proved with a fake registry
    that knows the four tagged references the table pins, and a fake
    reference parser. Every document is built from its lines, and every line
    from short pieces, so that each case reads as the text it stands for. */
module ResolveTable {
  import opened Wrappers
  import opened Text
  import opened Dockerfile
  import opened ResolveProperties

  // The tagged references the table looks up.
  const Alpine313Tag: string := "alpine:3.13"
  const GolangTag: string := "golang:latest"
  const AlpineLatestTag: string := "alpine:latest"
  const NginxTag: string := "nginx:latest"

  // The sha256 digests the fake registry pins them to, in two halves.
  const Alpine313Digest: string := "469b6e04ee185740477efa44ed5bdd64" + "a07bbdd6c7e5f5d169e540889597b911"
  const GolangDigest: string := "660f138b4477001d65324a51fa158c1b" + "868651b44e43f0953bf062e9f38b72f3"
  const AlpineLatestDigest: string := "8914eb54f968791faf6a8638949e480f" + "ef81e697984fba772b3976835194c6d4"
  const NginxDigest: string := "0047b729188a15da49380d9506d65959" + "cce6d40291ccfb4e039f5dc7efd33286"

  const Library: string := "index.docker.io/library/"

  // What the fake registry answers: the fully qualified, digest-pinned
  // references.
  const Alpine313: string := Library + "alpine" + DigestMarker + Alpine313Digest
  const GolangLatest: string := Library + "golang" + DigestMarker + GolangDigest
  const AlpineLatest: string := Library + "alpine" + DigestMarker + AlpineLatestDigest
  const NginxLatest: string := Library + "nginx" + DigestMarker + NginxDigest

  /** The fake registry: the four references the table resolves. */
  function FakeResolve(image: string): Option<string> {
    if image == Alpine313Tag then Some(Alpine313)
    else if image == GolangTag then Some(GolangLatest)
    else if image == AlpineLatestTag then Some(AlpineLatest)
    else if image == NginxTag then Some(NginxLatest)
    else None
  }

  /** The fake reference parser: it rejects `$(` placeholders and the stage
      name `builder`. */
  predicate FakeParses(image: string) {
    !Contains(image, Placeholder) && image != "builder"
  }

  /** Printable ASCII without the space: no white space, no newline. */
  predicate Printable(s: string) {
    forall k :: 0 <= k < |s| ==> '!' <= s[k] <= '~'
  }

  lemma PrintableNoSpace(s: string)
    requires Printable(s)
    ensures NoSpace(s)
  {
    forall k | 0 <= k < |s|
      ensures !IsSpace(s[k])
    {
      assert '!' <= s[k] <= '~';
    }
  }

  lemma JoinNoSpace(a: string, b: string)
    requires NoSpace(a) && NoSpace(b)
    ensures NoSpace(a + b)
  {
    forall k | 0 <= k < |a + b|
      ensures !IsSpace((a + b)[k])
    {
      if k < |a| {
        assert (a + b)[k] == a[k];
      } else {
        assert (a + b)[k] == b[k - |a|];
      }
    }
  }

  /** A tag the fake registry knows, holding neither a digest nor a
      placeholder, is looked up. */
  lemma KnownTag(tag: string)
    requires Printable(tag) && '@' !in tag && '$' !in tag && tag != "builder"
    requires FakeResolve(tag).Some?
    ensures tag != [] && NoSpace(tag) && Eligible(tag, FakeParses)
  {
    PrintableNoSpace(tag);
    NotContainsHead(tag, DigestMarker);
    NotContainsHead(tag, Placeholder);
  }

  // ---------------------------------------------------------------------
  // The lines the table's documents are made of.

  const FromAlpine313: string := FromKeyword + " " + Alpine313Tag
  const CopyAlpine313: string := "COPY " + FromFlag + Alpine313Tag
  const PinnedAlpine: string := "alpine" + DigestMarker + Alpine313Digest
  const FromAlpine313Spaced: string := FromKeyword + "    " + Alpine313Tag
  const PaddedFromAlpine313: string := "   " + FromAlpine313Spaced + "   "
  const FromPinnedAlpine: string := FromKeyword + " " + PinnedAlpine
  const FromScratch: string := FromKeyword + " " + Scratch
  const PlaceholderTag: string := "alpine:$(TAG)"
  const FromPlaceholderTag: string := FromKeyword + " " + PlaceholderTag
  const PlaceholderImage: string := "$(IMAGE)"
  const FromPlaceholderImage: string := FromKeyword + " " + PlaceholderImage
  const AsBuilder: string := " AS builder"
  const FromGolangBuilder: string := FromKeyword + " " + GolangTag + AsBuilder
  const FromAlpineLatest: string := FromKeyword + " " + AlpineLatestTag
  const AppPaths: string := " /go/src/github.com/foo/bar/app ."
  const CopyFromBuilder: string := "COPY " + FromFlag + "builder" + AppPaths
  const NginxPaths: string := " /etc/nginx/nginx.conf /nginx.conf"
  const CopyNginx: string := "COPY " + FromFlag + NginxTag + NginxPaths

  // Lines that are neither `FROM` nor `COPY --from=`.
  const CopyDot: string := "COPY . ."
  const RunLs: string := "RUN ls"
  const RunBuild: string := "RUN CGO_ENABLED=0 " + "GOOS=linux go build" + " -a -installsuffix" + " cgo -o app ."
  const Workdir: string := "WORKDIR /root/"
  const Cmd: string := "CMD [\"./app\"]"

  // ---------------------------------------------------------------------
  // How the fake registry and parser treat each image.

  /** A reference already pinned to a digest is not looked up. */
  lemma PinnedAlpineIneligible()
    ensures PinnedAlpine != [] && NoSpace(PinnedAlpine) && !Eligible(PinnedAlpine, FakeParses)
  {
    var name := "alpine";
    var (lo, hi) := ("469b6e04ee185740477efa44ed5bdd64", "a07bbdd6c7e5f5d169e540889597b911");
    PrintableNoSpace(lo);
    PrintableNoSpace(hi);
    JoinNoSpace(lo, hi);
    PrintableNoSpace(name);
    PrintableNoSpace(DigestMarker);
    JoinNoSpace(name, DigestMarker);
    JoinNoSpace(name + DigestMarker, Alpine313Digest);
    assert PinnedAlpine[|name|..|name| + |DigestMarker|] == DigestMarker;
    ContainsAt(PinnedAlpine, DigestMarker, |name|);
  }

  /** `$(` placeholders do not parse. */
  lemma PlaceholdersIneligible()
    ensures NoSpace(PlaceholderTag) && !Eligible(PlaceholderTag, FakeParses)
    ensures NoSpace(PlaceholderImage) && !Eligible(PlaceholderImage, FakeParses)
  {
    PrintableNoSpace(PlaceholderTag);
    PrintableNoSpace(PlaceholderImage);
    assert PlaceholderTag[7..9] == Placeholder;
    ContainsAt(PlaceholderTag, Placeholder, 7);
    assert PlaceholderImage[0..2] == Placeholder;
    ContainsAt(PlaceholderImage, Placeholder, 0);
  }

  /** A white-space-free string holds no newline. */
  lemma NoSpaceNoNewline(s: string)
    requires NoSpace(s)
    ensures '\n' !in s
  {
    forall k | 0 <= k < |s|
      ensures s[k] != '\n'
    {
      assert !IsSpace(s[k]);
    }
  }

  /** No FROM line of the table holds a newline. */
  lemma FromLinesSingle()
    ensures '\n' !in FromAlpine313 && '\n' !in FromScratch && '\n' !in FromAlpineLatest
    ensures '\n' !in FromPlaceholderTag && '\n' !in FromPlaceholderImage && '\n' !in FromGolangBuilder
    ensures '\n' !in FromPinnedAlpine && '\n' !in PaddedFromAlpine313
  {
    PinnedAlpineIneligible();
    NoSpaceNoNewline(PinnedAlpine);
    assert FromPinnedAlpine == (FromKeyword + " ") + PinnedAlpine;
  }

  /** No COPY line of the table holds a newline. */
  lemma CopyLinesSingle()
    ensures '\n' !in CopyAlpine313 && '\n' !in CopyDot && '\n' !in CopyFromBuilder && '\n' !in CopyNginx
  {
  }

  /** No other line of the table holds a newline. */
  lemma OtherLinesSingle()
    ensures '\n' !in RunLs && '\n' !in Workdir && '\n' !in Cmd && '\n' !in RunBuild
  {
  }

  /** The tags the fake registry knows are looked up. */
  lemma Alpine313Known()
    ensures Alpine313Tag != [] && NoSpace(Alpine313Tag) && Eligible(Alpine313Tag, FakeParses)
  {
    KnownTag(Alpine313Tag);
  }

  lemma GolangKnown()
    ensures GolangTag != [] && NoSpace(GolangTag) && Eligible(GolangTag, FakeParses)
  {
    KnownTag(GolangTag);
  }

  lemma AlpineLatestKnown()
    ensures AlpineLatestTag != [] && NoSpace(AlpineLatestTag) && Eligible(AlpineLatestTag, FakeParses)
  {
    KnownTag(AlpineLatestTag);
  }

  lemma NginxKnown()
    ensures NginxTag != [] && NoSpace(NginxTag) && Eligible(NginxTag, FakeParses)
  {
    KnownTag(NginxTag);
  }

  // ---------------------------------------------------------------------
  // What each line becomes.

  lemma FromAlpine313Pinned()
    ensures RewriteLine(FromAlpine313, FakeParses, FakeResolve) == Success(FromKeyword + " " + Alpine313)
  {
    Alpine313Known();
    FromLineOutcome(" ", Alpine313Tag, "", FakeParses, FakeResolve);
    assert FromAlpine313 + "" == FromAlpine313;
    assert FromKeyword + " " + Alpine313 + "" == FromKeyword + " " + Alpine313;
  }

  /** The surrounding blanks go; the blanks after the keyword stay. */
  lemma PaddedLineTrimmed()
    ensures TrimSpace(PaddedFromAlpine313) == FromAlpine313Spaced
  {
    Alpine313Known();
    assert FromAlpine313Spaced[0] == 'F';
    assert FromAlpine313Spaced[|FromAlpine313Spaced| - 1] == '3';
    TrimSpaceAround("   ", FromAlpine313Spaced, "   ");
  }

  lemma PaddedFromAlpine313Pinned()
    ensures RewriteLine(PaddedFromAlpine313, FakeParses, FakeResolve) == Success(FromKeyword + "    " + Alpine313)
  {
    PaddedLineTrimmed();
    RewriteLineTrims(PaddedFromAlpine313, FakeParses, FakeResolve);
    SpacedFromAlpine313Pinned();
  }

  lemma SpacedFromAlpine313Pinned()
    ensures RewriteLine(FromAlpine313Spaced, FakeParses, FakeResolve) == Success(FromKeyword + "    " + Alpine313)
  {
    Alpine313Known();
    assert AllSpace("    ");
    FromLineOutcome("    ", Alpine313Tag, "", FakeParses, FakeResolve);
    assert FromAlpine313Spaced + "" == FromAlpine313Spaced;
    assert FromKeyword + "    " + Alpine313 + "" == FromKeyword + "    " + Alpine313;
  }

  lemma CopyAlpine313Pinned()
    ensures RewriteLine(CopyAlpine313, FakeParses, FakeResolve) == Success("COPY " + FromFlag + Alpine313)
  {
    Alpine313Known();
    CopyLineOutcome(Alpine313Tag, "", FakeParses, FakeResolve);
    assert CopyAlpine313 + "" == CopyAlpine313;
    assert "COPY " + FromFlag + Alpine313 + "" == "COPY " + FromFlag + Alpine313;
  }

  lemma FromPinnedAlpineKept()
    ensures RewriteLine(FromPinnedAlpine, FakeParses, FakeResolve) == Success(FromPinnedAlpine)
  {
    PinnedAlpineIneligible();
    FromLineOutcome(" ", PinnedAlpine, "", FakeParses, FakeResolve);
    assert FromPinnedAlpine + "" == FromPinnedAlpine;
  }

  lemma FromScratchKept()
    ensures RewriteLine(FromScratch, FakeParses, FakeResolve) == Success(FromScratch)
  {
    FromLineOutcome(" ", Scratch, "", FakeParses, FakeResolve);
    assert FromScratch + "" == FromScratch;
  }

  lemma FromPlaceholdersKept()
    ensures RewriteLine(FromPlaceholderTag, FakeParses, FakeResolve) == Success(FromPlaceholderTag)
    ensures RewriteLine(FromPlaceholderImage, FakeParses, FakeResolve) == Success(FromPlaceholderImage)
  {
    PlaceholdersIneligible();
    FromLineOutcome(" ", PlaceholderTag, "", FakeParses, FakeResolve);
    assert FromPlaceholderTag + "" == FromPlaceholderTag;
    FromLineOutcome(" ", PlaceholderImage, "", FakeParses, FakeResolve);
    assert FromPlaceholderImage + "" == FromPlaceholderImage;
  }

  lemma FromGolangBuilderPinned()
    ensures RewriteLine(FromGolangBuilder, FakeParses, FakeResolve) == Success(FromKeyword + " " + GolangLatest + AsBuilder)
  {
    GolangKnown();
    FromLineOutcome(" ", GolangTag, AsBuilder, FakeParses, FakeResolve);
  }

  lemma FromAlpineLatestPinned()
    ensures RewriteLine(FromAlpineLatest, FakeParses, FakeResolve) == Success(FromKeyword + " " + AlpineLatest)
  {
    AlpineLatestKnown();
    FromLineOutcome(" ", AlpineLatestTag, "", FakeParses, FakeResolve);
    assert FromAlpineLatest + "" == FromAlpineLatest;
    assert FromKeyword + " " + AlpineLatest + "" == FromKeyword + " " + AlpineLatest;
  }

  lemma CopyFromBuilderKept()
    ensures RewriteLine(CopyFromBuilder, FakeParses, FakeResolve) == Success(CopyFromBuilder)
  {
    CopyLineOutcome("builder", AppPaths, FakeParses, FakeResolve);
  }

  lemma CopyNginxPinned()
    ensures RewriteLine(CopyNginx, FakeParses, FakeResolve) == Success("COPY " + FromFlag + NginxLatest + NginxPaths)
  {
    NginxKnown();
    CopyLineOutcome(NginxTag, NginxPaths, FakeParses, FakeResolve);
  }

  lemma CopyDotKept()
    ensures RewriteLine(CopyDot, FakeParses, FakeResolve) == Success(CopyDot)
  {
    NotContainsHead(CopyDot, FromFlag);
    TrimmedOtherLineKept(CopyDot, FakeParses, FakeResolve);
  }

  lemma RunLsKept()
    ensures RewriteLine(RunLs, FakeParses, FakeResolve) == Success(RunLs)
  {
    TrimmedOtherLineKept(RunLs, FakeParses, FakeResolve);
  }

  lemma EmptyLineKept()
    ensures RewriteLine("", FakeParses, FakeResolve) == Success("")
  {
    TrimmedOtherLineKept("", FakeParses, FakeResolve);
  }

  lemma RunBuildKept()
    ensures RewriteLine(RunBuild, FakeParses, FakeResolve) == Success(RunBuild)
  {
    TrimmedOtherLineKept(RunBuild, FakeParses, FakeResolve);
  }

  lemma WorkdirKept()
    ensures RewriteLine(Workdir, FakeParses, FakeResolve) == Success(Workdir)
  {
    TrimmedOtherLineKept(Workdir, FakeParses, FakeResolve);
  }

  lemma CmdKept()
    ensures RewriteLine(Cmd, FakeParses, FakeResolve) == Success(Cmd)
  {
    TrimmedOtherLineKept(Cmd, FakeParses, FakeResolve);
  }
}
