/** The control flow of `buildAndUpload` and `main` in main.go. Every foreign
    step (temporary directory, logo decoding, image rendering, PNG writing,
    ffmpeg, the upload) is given by its outcome in an environment, and the
    model records the calls the program makes, in order, so that what is
    called with what, and the clean-up, can be stated. */
module Pipeline {
  import opened Wrappers
  import opened Feed
  import opened Metadata

  /** The command-line configuration (main.go:24-32). */
  datatype Config = Config(
    rss: string,
    logo: string,
    fgHex: string,
    bgHex: string,
    width: int,
    height: int)

  /** The flag defaults. The title template is fixed to its default; see
      `Metadata.VideoTitle`. */
  const Defaults := Config("http://feeds.feedburner.com/GcpPodcast?format=xml",
                           "logo.png", "ffffff", "009688", 1200, 800)

  /** The calls of `buildAndUpload`, in order; the feed retrieval and
      decoding that `main` does first are not recorded. */
  datatype Call =
    | MakeTempDir
    | LoadLogo(path: string)
    | CreateImage(text: string, fg: string, bg: string, width: int, height: int)
    | WritePng(path: string)
    | CreateVideo(slide: string, mp3: string, video: string)
    | Upload(title: string, description: string, tags: seq<string>, video: string)
    | RemoveAll(dir: string)

  /** Whether each foreign step succeeds; `tempDir` is the directory
      created, if any. The result of `RemoveAll` is only logged by the
      source, so it is not part of the environment. */
  datatype Env = Env(
    tempDir: Option<string>,
    logoLoads: bool,
    imageCreated: bool,
    pngWritten: bool,
    videoCreated: bool,
    uploaded: bool)

  /** The errors `buildAndUpload` returns, one per step. */
  datatype BuildError =
    | TempDirFailed
    | LogoFailed(path: string)
    | ImageFailed
    | PngFailed(path: string)
    | VideoFailed
    | UploadFailed

  datatype Run = Run(error: Option<BuildError>, calls: seq<Call>)

  /** `filepath.Join(dir, name)` for a plain file name. */
  function Join(dir: string, name: string): string
  {
    dir + "/" + name
  }

  /** The steps between creating the directory and its deferred removal. */
  function BuildSteps(cfg: Config, ep: Episode, env: Env, dir: string): Run
  {
    var c1 := [LoadLogo(cfg.logo)];
    if !env.logoLoads then Run(Some(LogoFailed(cfg.logo)), c1) else
    var c2 := c1 + [CreateImage(CardText(ep.number, ep.title), cfg.fgHex, cfg.bgHex, cfg.width, cfg.height)];
    if !env.imageCreated then Run(Some(ImageFailed), c2) else
    var slide := Join(dir, "slide.png");
    var c3 := c2 + [WritePng(slide)];
    if !env.pngWritten then Run(Some(PngFailed(slide)), c3) else
    var video := Join(dir, "vid.mp4");
    var c4 := c3 + [CreateVideo(slide, ep.mp3, video)];
    if !env.videoCreated then Run(Some(VideoFailed), c4) else
    var c5 := c4 + [Upload(VideoTitle(ep.title, ep.number), Description(ep.link, ep.desc), UploadTags(ep.tags), video)];
    if !env.uploaded then Run(Some(UploadFailed), c5) else Run(None, c5)
  }

  /** `buildAndUpload`: the directory, once created, is removed by the
      deferred call on every way out. */
  function BuildAndUpload(cfg: Config, ep: Episode, env: Env): Run
  {
    match env.tempDir
    case None => Run(Some(TempDirFailed), [MakeTempDir])
    case Some(dir) =>
      var inner := BuildSteps(cfg, ep, env, dir);
      Run(inner.error, [MakeTempDir] + inner.calls + [RemoveAll(dir)])
  }

  /** How the process ends: `os.Exit(1)` after an error, a plain return otherwise. */
  datatype Exit = Exit(status: int, calls: seq<Call>)

  /** `main` after the flags and the episode number are read: `answer` is the
      token read at the prompt. */
  function Command(cfg: Config, src: FeedSource, number: int, answer: string, env: Env): Exit
    requires src.Decoded? ==> |src.channels| > 0
  {
    match FetchEpisode(cfg.rss, src, number)
    case Err(_) => Exit(1, [])
    case Ok(ep) =>
      if !Proceeds(answer) then Exit(0, [])
      else
        var run := BuildAndUpload(cfg, ep, env);
        Exit(if run.error.Some? then 1 else 0, run.calls)
  }

  predicate AllSucceed(env: Env)
  {
    env.tempDir.Some? && env.logoLoads && env.imageCreated && env.pngWritten && env.videoCreated && env.uploaded
  }

  // ---------------------------------------------------------------------
  // Properties of buildAndUpload

  /** Each failure stops the run at once: the calls are the full sequence
      cut just after the first step that failed, and the error names that
      step. */
  lemma BuildStepsPrefix(cfg: Config, ep: Episode, env: Env, dir: string)
    ensures var r := BuildSteps(cfg, ep, env, dir);
      var full := BuildSteps(cfg, ep, Env(Some(dir), true, true, true, true, true), dir).calls;
      |full| == 5 && 1 <= |r.calls| <= 5 && r.calls == full[..|r.calls|] &&
      (r.error.None? <==> env.logoLoads && env.imageCreated && env.pngWritten && env.videoCreated && env.uploaded) &&
      (!env.logoLoads ==> r == Run(Some(LogoFailed(cfg.logo)), full[..1])) &&
      (env.logoLoads && !env.imageCreated ==> r == Run(Some(ImageFailed), full[..2])) &&
      (env.logoLoads && env.imageCreated && !env.pngWritten ==>
         r == Run(Some(PngFailed(Join(dir, "slide.png"))), full[..3])) &&
      (env.logoLoads && env.imageCreated && env.pngWritten && !env.videoCreated ==>
         r == Run(Some(VideoFailed), full[..4])) &&
      (env.logoLoads && env.imageCreated && env.pngWritten && env.videoCreated && !env.uploaded ==>
         r == Run(Some(UploadFailed), full)) &&
      (env.logoLoads && env.imageCreated && env.pngWritten && env.videoCreated && env.uploaded ==>
         r == Run(None, full))
  {
  }

  /** Clean-up: once the directory exists, the last call removes it, and it is
      removed exactly once; without a directory nothing else is called. */
  lemma WorkspaceRemovedOnEveryExit(cfg: Config, ep: Episode, env: Env)
    ensures var r := BuildAndUpload(cfg, ep, env);
      |r.calls| >= 1 && r.calls[0] == MakeTempDir &&
      (env.tempDir.None? ==> r.calls == [MakeTempDir] && r.error == Some(TempDirFailed)) &&
      (env.tempDir.Some? ==>
         r.calls[|r.calls| - 1] == RemoveAll(env.tempDir.value) &&
         forall i :: 0 <= i < |r.calls| - 1 ==> !r.calls[i].RemoveAll?)
  {
    if env.tempDir.Some? {
      var dir := env.tempDir.value;
      var inner := BuildSteps(cfg, ep, env, dir);
      BuildStepsPrefix(cfg, ep, env, dir);
      var r := BuildAndUpload(cfg, ep, env);
      assert forall i :: 1 <= i < |r.calls| - 1 ==> r.calls[i] == inner.calls[i - 1];
    }
  }

  /** The run succeeds exactly when every step succeeds. */
  lemma BuildSucceedsIffAllSteps(cfg: Config, ep: Episode, env: Env)
    ensures BuildAndUpload(cfg, ep, env).error.None? <==> AllSucceed(env)
  {
    if env.tempDir.Some? {
      BuildStepsPrefix(cfg, ep, env, env.tempDir.value);
    }
  }

  /** No partial video is published: the upload is attempted only after every
      earlier step succeeded, it is attempted at most once, immediately
      after the video is built, and it carries the derived metadata and the
      video in the temporary directory. */
  lemma UploadOnlyAfterVideo(cfg: Config, ep: Episode, env: Env, k: nat)
    requires var r := BuildAndUpload(cfg, ep, env); k < |r.calls| && r.calls[k].Upload?
    ensures env.tempDir.Some? && env.logoLoads && env.imageCreated && env.pngWritten && env.videoCreated
    ensures var r := BuildAndUpload(cfg, ep, env);
      var dir := env.tempDir.value;
      k == 5 &&
      r.calls[k - 1] == CreateVideo(Join(dir, "slide.png"), ep.mp3, Join(dir, "vid.mp4")) &&
      r.calls[k] == Upload(VideoTitle(ep.title, ep.number), Description(ep.link, ep.desc),
                           UploadTags(ep.tags), Join(dir, "vid.mp4"))
  {
    var r := BuildAndUpload(cfg, ep, env);
    if env.tempDir.None? {
      assert false;
    }
    var dir := env.tempDir.value;
    var inner := BuildSteps(cfg, ep, env, dir);
    assert r.calls == [MakeTempDir] + inner.calls + [RemoveAll(dir)];
    assert r.calls[k] == inner.calls[k - 1];
  }

  /** The title card shows the number and the title, in the configured
      colours and size, whenever the logo loads. */
  lemma ImageGetsCardText(cfg: Config, ep: Episode, env: Env)
    requires env.tempDir.Some? && env.logoLoads
    ensures var r := BuildAndUpload(cfg, ep, env);
      |r.calls| >= 3 &&
      r.calls[2] == CreateImage(CardText(ep.number, ep.title), cfg.fgHex, cfg.bgHex, cfg.width, cfg.height)
  {
  }

  // ---------------------------------------------------------------------
  // Properties of main

  /** Nothing is built unless the episode is found and the answer is one of
      the accepted ones; a lookup failure exits with status 1. */
  lemma NothingBuiltWithoutEpisodeAndConsent(cfg: Config, src: FeedSource, number: int, answer: string, env: Env)
    requires src.Decoded? ==> |src.channels| > 0
    ensures var x := Command(cfg, src, number, answer, env);
      x.calls != [] <==> FetchEpisode(cfg.rss, src, number).Ok? && Proceeds(answer)
    ensures FetchEpisode(cfg.rss, src, number).Err? ==> Command(cfg, src, number, answer, env) == Exit(1, [])
    ensures FetchEpisode(cfg.rss, src, number).Ok? && !Proceeds(answer) ==>
      Command(cfg, src, number, answer, env) == Exit(0, [])
  {
    var f := FetchEpisode(cfg.rss, src, number);
    if f.Ok? && Proceeds(answer) {
      WorkspaceRemovedOnEveryExit(cfg, f.value, env);
    }
  }

  /** The confirmation gate: for a found episode, a build step is called
      exactly when the answer is `Y`, `y` or empty; any other answer, such
      as `yes` or `n`, returns with status 0 and calls nothing. */
  lemma ConfirmationGate(cfg: Config, src: FeedSource, number: int, answer: string, env: Env)
    requires src.Decoded? ==> |src.channels| > 0
    requires FetchEpisode(cfg.rss, src, number).Ok?
    ensures Command(cfg, src, number, answer, env).calls != [] <==> answer == "Y" || answer == "y" || answer == ""
    ensures !(answer == "Y" || answer == "y" || answer == "") ==> Command(cfg, src, number, answer, env) == Exit(0, [])
    ensures Command(cfg, src, number, "yes", env) == Exit(0, [])
    ensures Command(cfg, src, number, "Yes", env) == Exit(0, [])
    ensures Command(cfg, src, number, "n", env) == Exit(0, [])
  {
    var ep := FetchEpisode(cfg.rss, src, number).value;
    WorkspaceRemovedOnEveryExit(cfg, ep, env);
  }

  /** The exit status is 0 exactly when the user declined or every step succeeded. */
  lemma ExitStatus(cfg: Config, src: FeedSource, number: int, answer: string, env: Env)
    requires src.Decoded? ==> |src.channels| > 0
    ensures var x := Command(cfg, src, number, answer, env);
      x.status == 0 <==> FetchEpisode(cfg.rss, src, number).Ok? && (!Proceeds(answer) || AllSucceed(env))
  {
    var f := FetchEpisode(cfg.rss, src, number);
    if f.Ok? {
      BuildSucceedsIffAllSteps(cfg, f.value, env);
    }
  }

  // ---------------------------------------------------------------------
  // Sample runs on a one-item feed holding episode 5

  /** The one item of the sample feed. */
  predicate IsSampleItem(item: Item)
  {
    item == Item("Test", 5, "http://x/5", "<p>Hi</p>", "http://x/5.mp3", ["a"])
  }

  /** Episode 5 is found, confirmed with an empty answer and published with
      the derived title, description and tags; status 0. */
  lemma ScenarioPublish(item: Item, env: Env)
    requires IsSampleItem(item) && env == Env(Some("/tmp/w"), true, true, true, true, true)
    ensures var x := Command(Defaults, Decoded([Channel([item])]), 5, "", env);
      x.status == 0 && |x.calls| == 7 &&
      x.calls[5] == Upload("Test: GCPPodcast 5", "Original post: http://x/5\n\nHi",
                           ["a", "gcppodcast", "podcast"], "/tmp/w/vid.mp4") &&
      x.calls[6] == RemoveAll("/tmp/w")
  {
    var ep := ToEpisode(item);
    assert FetchEpisode(Defaults.rss, Decoded([Channel([item])]), 5) == Ok(ep);
    assert Decimal.FormatInt(5) == "5";
    assert VideoTitle(ep.title, ep.number) == "Test: GCPPodcast 5";
    DescriptionExample(ep.link, ep.desc);
    assert UploadTags(ep.tags) == ["a", "gcppodcast", "podcast"];
    UploadOnlyAfterVideo(Defaults, ep, env, 5);
  }

  /** Episode 999 is not in the feed: status 1 and no build step is called, so nothing
      is published. */
  lemma ScenarioNotFound(item: Item, env: Env)
    requires IsSampleItem(item)
    ensures Command(Defaults, Decoded([Channel([item])]), 999, "", env) == Exit(1, [])
  {
    var items := [item];
    assert items[1..] == [];
    assert FindEpisode(items, 999) == FindEpisode([], 999);
  }

  /** ffmpeg fails: status 1, no upload, and the directory is still removed. */
  lemma ScenarioVideoFails(item: Item, env: Env)
    requires IsSampleItem(item) && env == Env(Some("/tmp/w"), true, true, true, false, true)
    ensures var x := Command(Defaults, Decoded([Channel([item])]), 5, "y", env);
      x.status == 1 && |x.calls| == 6 && x.calls[5] == RemoveAll("/tmp/w") &&
      forall i :: 0 <= i < |x.calls| ==> !x.calls[i].Upload?
  {
    assert FetchEpisode(Defaults.rss, Decoded([Channel([item])]), 5) == Ok(ToEpisode(item));
  }
}
