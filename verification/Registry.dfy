/** From a tag to the labels inside the image it names, through a registry that
    may answer every request with anything at all. */
module Registry {
  import opened Base
  import opened Text
  import Approval
  import RunMachine
  import Versions

  // ---- what can be read --------------------------------------------------

  datatype Entry = Entry(os: Option<string>, digest: Option<string>)

  /** A decoded manifest or index: `entries` is the index's list, if it has one. */
  datatype Manifest = Manifest(index: bool, entries: Option<seq<Entry>>, config: Option<string>)

  type Labels = map<string, string>

  /** SHA-256 in hexadecimal, and the two JSON shapes; None where decoding raises. */
  datatype Codec = Codec(hash: string -> string,
                         asManifest: string -> Option<Manifest>,
                         asConfig: string -> Option<map<string, Option<string>>>)

  /** One HTTP exchange, token included: it fails, or brings a status, a digest
      header and a body. */
  datatype Answer = Failed | Answer(status: int, header: string, body: string)

  datatype Failure = NotATag | NoHost | Unreachable | BadStatus | NoDigest | NotTheDigest | Malformed | NoPlatform
      | NoConfig | OtherRelease

  // ---- registry.py -------------------------------------------------------

  predicate IsHex(s: string) {
    forall i :: 0 <= i < |s| ==> '0' <= s[i] <= '9' || 'a' <= s[i] <= 'f'
  }

  const ALGORITHM := "sha256:"

  /** `^sha256:[0-9a-f]{64}$`, which lets one final newline through. */
  predicate IsDigest(d: string) {
    && (|d| == 71 || (|d| == 72 && d[71] == '\n'))
    && d[..7] == ALGORITHM && IsHex(d[7..71])
  }

  /** The body is what the digest says it is. */
  predicate Describes(c: Codec, digest: string, body: string) {
    IsDigest(digest) && c.hash(body) == digest[7..]
  }

  /** `split_image`: the part before the first slash must look like a host. */
  predicate HasHost(image: string) {
    var i := Versions.IndexOf(image, '/');
    i + 1 < |image| && ('.' in image[..i] || ':' in image[..i] || image[..i] == "localhost")
  }

  /** What comes before the first slash is a registry when it has a dot or a port,
      or is this machine; and a name follows. */
  predicate OnHost(image: string, host: string, name: string) {
    && image == host + "/" + name && '/' !in host && name != ""
    && ('.' in host || ':' in host || host == "localhost")
  }

  lemma HostReads(image: string)
    ensures HasHost(image) <==> exists host, name :: OnHost(image, host, name)
  {
    var i := Versions.IndexOf(image, '/');
    if HasHost(image) {
      assert OnHost(image, image[..i], image[i + 1..]);
    }
    if host, name :| OnHost(image, host, name) {
      Versions.FirstOccurrence(host, name, '/');
      assert image[..|host|] == host;
    }
  }

  /** A digest is the algorithm and sixty-four digits from these sixteen. */
  predicate Hashed(d: string, hex: string) {
    && (d == "sha256:" + hex || d == "sha256:" + hex + "\n") && |hex| == 64
    && forall i :: 0 <= i < |hex| ==> hex[i] in "0123456789abcdef"
  }

  lemma DigestReads(d: string)
    ensures IsDigest(d) <==> exists hex :: Hashed(d, hex)
  {
    if IsDigest(d) {
      var hex := d[7..71];
      assert d == "sha256:" + hex || d == "sha256:" + hex + "\n";
      forall i | 0 <= i < |hex| ensures hex[i] in "0123456789abcdef" {
        HexReads(hex[i]);
      }
      assert Hashed(d, hex);
    }
    if hex :| Hashed(d, hex) {
      assert d[..7] == "sha256:" && d[7..71] == hex;
      forall i | 0 <= i < |hex| ensures '0' <= hex[i] <= '9' || 'a' <= hex[i] <= 'f' {
        HexReads(hex[i]);
      }
    }
  }

  lemma HexReads(c: char)
    ensures c in "0123456789abcdef" <==> '0' <= c <= '9' || 'a' <= c <= 'f'
  {
  }

  /** `resolve_digest`: the digest is the header's, and it describes the body. */
  function ResolveDigest(c: Codec, image: string, tag: string, a: Answer): Result<(string, Manifest), Failure> {
    if !Approval.ValidTag(tag) then Err(NotATag)
    else if !HasHost(image) then Err(NoHost)
    else if a.Failed? then Err(Unreachable)
    else if a.status != 200 then Err(BadStatus)
    else if !IsDigest(a.header) then Err(NoDigest)
    else if c.hash(a.body) != a.header[7..] then Err(NotTheDigest)
    else
      match c.asManifest(a.body)
      case None => Err(Malformed)
      case Some(m) => Ok((a.header, m))
  }

  /** What `manifest` and `_blob` have in common: the bytes of a digest. */
  function Fetch(c: Codec, digest: string, a: Answer): Result<string, Failure> {
    if !IsDigest(digest) then Err(NoDigest)
    else if a.Failed? then Err(Unreachable)
    else if a.status != 200 then Err(BadStatus)
    else if c.hash(a.body) != digest[7..] then Err(NotTheDigest)
    else Ok(a.body)
  }

  function FetchManifest(c: Codec, digest: string, a: Answer): Result<Manifest, Failure> {
    match Fetch(c, digest, a)
    case Err(e) => Err(e)
    case Ok(body) =>
      match c.asManifest(body)
      case None => Err(Malformed)
      case Some(m) => Ok(m)
  }

  predicate RealPlatform(e: Entry) {
    e.os.Some? && e.os.value != "unknown"
  }

  /** The first entry for a real platform; attestation entries have none. */
  function FirstPlatform(entries: seq<Entry>): Option<Entry> {
    if entries == [] then None
    else if RealPlatform(entries[0]) then Some(entries[0])
    else FirstPlatform(entries[1..])
  }

  function Present(labels: map<string, Option<string>>): Labels {
    map k | k in labels && labels[k].Some? :: labels[k].value
  }

  /** The end of `labels`: the config blob of a platform manifest. */
  function ConfigLabels(c: Codec, m: Manifest, a: Answer): Result<Labels, Failure> {
    if !RunMachine.Truthy(m.config) then Err(NoConfig)
    else
      match Fetch(c, m.config.value, a)
      case Err(e) => Err(e)
      case Ok(body) =>
        match c.asConfig(body)
        case None => Err(Malformed)
        case Some(labels) => Ok(Present(labels))
  }

  /** `labels` once the top manifest is at hand; at most two more requests. */
  function Descend(c: Codec, m: Manifest, a: Answer, b: Answer): Result<Labels, Failure> {
    if m.index || m.entries.Some? then
      match FirstPlatform(if m.entries.Some? then m.entries.value else [])
      case None => Err(NoPlatform)
      case Some(child) =>
        if child.digest.None? then Err(Malformed)
        else
          match FetchManifest(c, child.digest.value, a)
          case Err(e) => Err(e)
          case Ok(platform) => ConfigLabels(c, platform, b)
    else ConfigLabels(c, m, a)
  }

  /** `labels` of a pinned image, given the answers to its requests in order. */
  function LabelsOf(c: Codec, image: string, digest: string, top: Answer, a: Answer, b: Answer)
    : Result<Labels, Failure>
  {
    if !HasHost(image) then Err(NoHost)
    else
      match FetchManifest(c, digest, top)
      case Err(e) => Err(e)
      case Ok(m) => Descend(c, m, a, b)
  }

  // ---- sources.py --------------------------------------------------------

  datatype Stamp = Stamp(version: Option<string>, gitSha: Option<string>, dbRevision: Option<string>,
      minDbRevision: Option<string>)

  const PREFIX := "org.pinpoint311.app"
  const OCI_PREFIX := "org.opencontainers.image"

  function Get(labels: Labels, k: string): Option<string> {
    if k in labels then Some(labels[k]) else None
  }

  function Or(a: Option<string>, b: Option<string>): Option<string> {
    if RunMachine.Truthy(a) then a else b
  }

  function StampFromLabels(l: Labels): Stamp {
    Stamp(Or(Get(l, PREFIX + ".version"), Get(l, OCI_PREFIX + ".version")),
          Or(Get(l, PREFIX + ".git_sha"), Get(l, OCI_PREFIX + ".revision")),
          Get(l, PREFIX + ".db_revision"), Get(l, PREFIX + ".min_db_revision"))
  }

  datatype ResolvedRelease = ResolvedRelease(tag: string, version: string, backendImage: string, frontendImage: string,
                                             backendDigest: string, frontendDigest: string, gitSha: Option<string>,
                                             dbRevision: Option<string>, minDbRevision: Option<string>,
                                             frontendVersion: Option<string>) {
    function BackendRef(): string { Ref(backendImage, backendDigest) }

    function FrontendRef(): string { Ref(frontendImage, frontendDigest) }

    /** What an upgrade run is handed. */
    function AsRelease(): RunMachine.Release {
      RunMachine.Release(tag, version, BackendRef(), FrontendRef(), dbRevision, minDbRevision, frontendVersion)
    }
  }

  function Ref(image: string, digest: string): string {
    if digest != "" then image + "@" + digest else image
  }

  /** Where images are, and how a release tag becomes an image tag. */
  datatype Location = Location(backend: string, frontend: string, stripV: bool) {
    function ImageTagFor(tag: string): string {
      if stripV && |tag| >= 2 && (tag[0] == 'v' || tag[0] == 'V') && IsDigit(tag[1]) then tag[1..] else tag
    }
  }

  /** Six requests at most: both tags, then both descents. */
  datatype Answers = Answers(backend: Answer, frontend: Answer, backend1: Answer, backend2: Answer, frontend1: Answer,
      frontend2: Answer)

  /** The label, if there is one, names the release that was asked for. */
  predicate LabelAgrees(stamp: Stamp, tag: string) {
    RunMachine.Truthy(stamp.version) ==> Versions.Norm(stamp.version.value) == Versions.Norm(tag)
  }

  /** `ReleaseSource.resolve` */
  function Resolve(c: Codec, at: Location, tag: string, a: Answers): Result<ResolvedRelease, Failure> {
    if !Approval.ValidTag(tag) then Err(NotATag)
    else
      match ResolveDigest(c, at.backend, at.ImageTagFor(tag), a.backend)
      case Err(e) => Err(e)
      case Ok((backendDigest, backendManifest)) =>
        match ResolveDigest(c, at.frontend, at.ImageTagFor(tag), a.frontend)
        case Err(e) => Err(e)
        case Ok((frontendDigest, frontendManifest)) =>
          match Descend(c, backendManifest, a.backend1, a.backend2)
          case Err(e) => Err(e)
          case Ok(backendLabels) =>
            match Descend(c, frontendManifest, a.frontend1, a.frontend2)
            case Err(e) => Err(e)
            case Ok(frontendLabels) =>
              var b, f := StampFromLabels(backendLabels), StampFromLabels(frontendLabels);
              if !LabelAgrees(b, tag) || !LabelAgrees(f, tag) then Err(OtherRelease)
              else Ok(ResolvedRelease(tag, if RunMachine.Truthy(b.version) then b.version.value else tag,
                                      at.backend, at.frontend, backendDigest, frontendDigest,
                                      b.gitSha, b.dbRevision, b.minDbRevision, f.version))
  }

  /** `stamp_for_ref`: the reference is cut at its first `@`. */
  function StampForRef(c: Codec, ref: string, top: Answer, a: Answer, b: Answer): Result<Stamp, Failure> {
    var i := Versions.IndexOf(ref, '@');
    var digest := if i < |ref| then ref[i + 1..] else "";
    if !IsDigest(digest) then Err(NoDigest)
    else
      match LabelsOf(c, ref[..i], digest, top, a, b)
      case Err(e) => Err(e)
      case Ok(labels) => Ok(StampFromLabels(labels))
  }

  // ---- what an accepted answer is ------------------------------------------

  /** The answer brings the very bytes the digest names. */
  predicate Served(c: Codec, digest: string, a: Answer) {
    IsDigest(digest) && a.Answer? && a.status == 200 && c.hash(a.body) == digest[7..]
  }

  /** The labels are those of `all` that are not null. */
  ghost predicate NonNull(all: map<string, Option<string>>, labels: Labels) {
    && (forall k :: k in labels <==> k in all && all[k].Some?)
    && forall k :: k in labels ==> all[k] == Some(labels[k])
  }

  /** The labels are those of the config blob the manifest names. */
  ghost predicate ConfigHolds(c: Codec, m: Manifest, a: Answer, labels: Labels) {
    && m.config.Some? && m.config.value != "" && Served(c, m.config.value, a)
    && c.asConfig(a.body).Some? && NonNull(c.asConfig(a.body).value, labels)
  }

  /** Entry `i` is the index's first for a real platform. */
  predicate FirstReal(entries: seq<Entry>, i: nat) {
    && i < |entries| && entries[i].os.Some? && entries[i].os.value != "unknown"
    && forall j :: 0 <= j < i ==> entries[j].os.None? || entries[j].os.value == "unknown"
  }

  /** From manifest `m` down to `labels`: by its own config, or by that of the
      manifest its first real platform names. */
  ghost predicate Reaches(c: Codec, m: Manifest, a: Answer, b: Answer, labels: Labels) {
    if !m.index && m.entries.None? then ConfigHolds(c, m, a, labels)
    else
      && m.entries.Some?
      && exists i: nat :: FirstReal(m.entries.value, i) && m.entries.value[i].digest.Some?
           && Served(c, m.entries.value[i].digest.value, a) && c.asManifest(a.body).Some?
           && ConfigHolds(c, c.asManifest(a.body).value, b, labels)
  }

  lemma {:induction false} FirstRealIsFirst(entries: seq<Entry>, i: nat)
    requires FirstReal(entries, i)
    ensures FirstPlatform(entries) == Some(entries[i])
  {
    if i > 0 {
      assert forall j :: 0 <= j < i ==> entries[1..][j] == entries[j + 1];
      FirstRealIsFirst(entries[1..], i - 1);
    }
  }

  lemma PresentIs(all: map<string, Option<string>>, labels: Labels)
    ensures labels == Present(all) <==> NonNull(all, labels)
  {
  }

  lemma ConfigIff(c: Codec, m: Manifest, a: Answer, labels: Labels)
    ensures ConfigLabels(c, m, a) == Ok(labels) <==> ConfigHolds(c, m, a, labels)
  {
    if a.Answer? && c.asConfig(a.body).Some? {
      PresentIs(c.asConfig(a.body).value, labels);
    }
    hide NonNull;
    hide Present;
  }

  /** The descent accepts exactly what was served all the way down. */
  lemma DescendIff(c: Codec, m: Manifest, a: Answer, b: Answer, labels: Labels)
    ensures Descend(c, m, a, b) == Ok(labels) <==> Reaches(c, m, a, b, labels)
  {
    hide ConfigHolds;
    hide ConfigLabels;
    if !m.index && m.entries.None? {
      ConfigIff(c, m, a, labels);
    } else if m.entries.Some? {
      FirstPlatformIsFirst(m.entries.value);
      if i: nat :| FirstReal(m.entries.value, i) {
        FirstRealIsFirst(m.entries.value, i);
      }
      if a.Answer? && c.asManifest(a.body).Some? {
        ConfigIff(c, c.asManifest(a.body).value, b, labels);
      }
    }
  }

  /** The labels of a digest are accepted exactly when every manifest and blob on
      the way was answered with 200 and with the bytes its digest names. */
  lemma LabelsIff(c: Codec, image: string, digest: string, top: Answer, a: Answer, b: Answer, labels: Labels)
    ensures LabelsOf(c, image, digest, top, a, b) == Ok(labels) <==>
              HasHost(image) && Served(c, digest, top) && c.asManifest(top.body).Some?
              && Reaches(c, c.asManifest(top.body).value, a, b, labels)
  {
    hide Reaches;
    hide Descend;
    if top.Answer? && c.asManifest(top.body).Some? {
      DescendIff(c, c.asManifest(top.body).value, a, b, labels);
    }
  }

  // ---- the descent is determined by the digest ---------------------------

  /** Nothing the registry sent in one conversation collides with anything it
      sent in the other. */
  ghost predicate NoCollision(c: Codec, xs: seq<Answer>, ys: seq<Answer>) {
    forall i, j ::
      (0 <= i < |xs| && 0 <= j < |ys| && xs[i].Answer? && ys[j].Answer?
       && c.hash(xs[i].body) == c.hash(ys[j].body)) ==>
      xs[i].body == ys[j].body
  }

  lemma SameDigestSameBytes(c: Codec, digest: string, a: Answer, b: Answer)
    requires Fetch(c, digest, a).Ok? && Fetch(c, digest, b).Ok? && NoCollision(c, [a], [b])
    ensures Fetch(c, digest, a) == Fetch(c, digest, b)
  {
    var xs, ys := [a], [b];
    assert xs[0] == a && ys[0] == b;
  }

  lemma Among(c: Codec, xs: seq<Answer>, ys: seq<Answer>, i: nat, j: nat)
    requires NoCollision(c, xs, ys) && i < |xs| && j < |ys|
    ensures NoCollision(c, [xs[i]], [ys[j]])
  {
  }

  lemma SameConfigSameLabels(c: Codec, m: Manifest, a: Answer, b: Answer)
    requires ConfigLabels(c, m, a).Ok? && ConfigLabels(c, m, b).Ok? && NoCollision(c, [a], [b])
    ensures ConfigLabels(c, m, a) == ConfigLabels(c, m, b)
  {
    SameDigestSameBytes(c, m.config.value, a, b);
  }

  /** From one manifest, two descents that both succeed read the same labels. */
  lemma DescentIsDetermined(c: Codec, m: Manifest, a1: Answer, b1: Answer, a2: Answer, b2: Answer)
    requires Descend(c, m, a1, b1).Ok? && Descend(c, m, a2, b2).Ok? && NoCollision(c, [a1, b1], [a2, b2])
    ensures Descend(c, m, a1, b1) == Descend(c, m, a2, b2)
  {
    var xs, ys := [a1, b1], [a2, b2];
    Among(c, xs, ys, 0, 0);
    Among(c, xs, ys, 1, 1);
    if m.index || m.entries.Some? {
      var child := FirstPlatform(if m.entries.Some? then m.entries.value else []).value;
      SameDigestSameBytes(c, child.digest.value, a1, a2);
      SameConfigSameLabels(c, FetchManifest(c, child.digest.value, a1).value, b1, b2);
    } else {
      SameConfigSameLabels(c, m, a1, a2);
    }
  }

  /** Whatever the registry answers, the labels of a digest are a function of
      the digest: two successful reads agree unless they exhibit a collision. */
  lemma LabelsAreDetermined(c: Codec, image1: string, image2: string, digest: string, xs: seq<Answer>, ys: seq<Answer>)
    requires |xs| == 3 && |ys| == 3 && NoCollision(c, xs, ys)
    requires LabelsOf(c, image1, digest, xs[0], xs[1], xs[2]).Ok?
             && LabelsOf(c, image2, digest, ys[0], ys[1], ys[2]).Ok?
    ensures LabelsOf(c, image1, digest, xs[0], xs[1], xs[2]) == LabelsOf(c, image2, digest, ys[0], ys[1], ys[2])
  {
    Among(c, xs, ys, 0, 0);
    SameDigestSameBytes(c, digest, xs[0], ys[0]);
    assert NoCollision(c, [xs[1], xs[2]], [ys[1], ys[2]]) by {
      assert forall i :: 0 <= i < 2 ==> [xs[1], xs[2]][i] == xs[i + 1] && [ys[1], ys[2]][i] == ys[i + 1];
    }
    DescentIsDetermined(c, FetchManifest(c, digest, xs[0]).value, xs[1], xs[2], ys[1], ys[2]);
  }

  /** The descent picks the first entry whose platform is real. */
  lemma {:induction false} FirstPlatformIsFirst(entries: seq<Entry>)
    ensures FirstPlatform(entries).None? ==> forall i :: 0 <= i < |entries| ==> !RealPlatform(entries[i])
    ensures FirstPlatform(entries).Some? ==>
      exists i :: 0 <= i < |entries| && entries[i] == FirstPlatform(entries).value && RealPlatform(entries[i])
                  && forall j :: 0 <= j < i ==> !RealPlatform(entries[j])
  {
    if entries != [] && !RealPlatform(entries[0]) {
      FirstPlatformIsFirst(entries[1..]);
      if FirstPlatform(entries).Some? {
        var i :| 0 <= i < |entries[1..]| && entries[1..][i] == FirstPlatform(entries).value
            && RealPlatform(entries[1..][i])
                 && forall j :: 0 <= j < i ==> !RealPlatform(entries[1..][j]);
        assert entries[i + 1] == entries[1..][i];
        forall j | 0 <= j < i + 1 ensures !RealPlatform(entries[j]) {
          if j > 0 { assert entries[j] == entries[1..][j - 1]; }
        }
      }
    }
  }

  // ---- an honest registry ------------------------------------------------

  /** Every body the registry holds, by digest. */
  type Store = map<string, string>

  ghost predicate Honest(c: Codec, store: Store) {
    forall d :: d in store ==> Describes(c, d, store[d])
  }

  function Serve(store: Store, digest: string): Answer {
    if digest in store then Answer(200, digest, store[digest]) else Answer(404, "", "")
  }

  /** The manifest stored under a digest, and the labels its config holds. */
  function StoredManifest(c: Codec, store: Store, digest: string): Option<Manifest> {
    if digest in store then c.asManifest(store[digest]) else None
  }

  function StoredConfig(c: Codec, store: Store, m: Manifest): Option<Labels> {
    if RunMachine.Truthy(m.config) && m.config.value in store && c.asConfig(store[m.config.value]).Some?
    then Some(Present(c.asConfig(store[m.config.value]).value)) else None
  }

  /** The image's labels, read off the store itself. */
  function StoredLabels(c: Codec, store: Store, digest: string): Option<Labels> {
    match StoredManifest(c, store, digest)
    case None => None
    case Some(m) =>
      if !m.index && m.entries.None? then StoredConfig(c, store, m)
      else
        var child := FirstPlatform(if m.entries.Some? then m.entries.value else []);
        if child.None? || child.value.digest.None? then None
        else
          match StoredManifest(c, store, child.value.digest.value)
          case None => None
          case Some(platform) => StoredConfig(c, store, platform)
  }

  lemma HonestConfig(c: Codec, store: Store, m: Manifest) returns (a: Answer)
    requires Honest(c, store) && StoredConfig(c, store, m).Some?
    ensures ConfigLabels(c, m, a) == Ok(StoredConfig(c, store, m).value)
    ensures a.Answer? && a.body in store.Values
  {
    a := Serve(store, m.config.value);
  }

  /** An honest registry holding a well-formed image is read to the end. */
  lemma HonestRegistryServes(c: Codec, store: Store, image: string, digest: string) returns (xs: seq<Answer>)
    requires Honest(c, store) && HasHost(image) && StoredLabels(c, store, digest).Some?
    ensures |xs| == 3 && LabelsOf(c, image, digest, xs[0], xs[1], xs[2]) == Ok(StoredLabels(c, store, digest).value)
    ensures forall i :: 0 <= i < 3 ==> xs[i].Answer? && xs[i].body in store.Values
  {
    var top := Serve(store, digest);
    var m := StoredManifest(c, store, digest).value;
    if !m.index && m.entries.None? {
      var a := HonestConfig(c, store, m);
      xs := [top, a, a];
    } else {
      var child := FirstPlatform(if m.entries.Some? then m.entries.value else []).value.digest.value;
      var a := Serve(store, child);
      var b := HonestConfig(c, store, StoredManifest(c, store, child).value);
      xs := [top, a, b];
    }
  }

  /** So what any registry gets accepted for a digest is what the honest one holds. */
  lemma OnlyTheContentIsAccepted(c: Codec, store: Store, image: string, digest: string, ys: seq<Answer>)
    requires Honest(c, store) && StoredLabels(c, store, digest).Some?
    requires |ys| == 3 && LabelsOf(c, image, digest, ys[0], ys[1], ys[2]).Ok?
    requires forall i, body ::
      (0 <= i < 3 && ys[i].Answer? && body in store.Values && c.hash(body) == c.hash(ys[i].body)) ==>
        body == ys[i].body
    ensures LabelsOf(c, image, digest, ys[0], ys[1], ys[2]) == Ok(StoredLabels(c, store, digest).value)
  {
    var xs := HonestRegistryServes(c, store, image, digest);
    LabelsAreDetermined(c, image, image, digest, xs, ys);
  }

  // ---- releases ----------------------------------------------------------

  function Backend(a: Answers): seq<Answer> {
    [a.backend, a.backend1, a.backend2]
  }

  /** A successful resolve read the backend's labels by its digest alone. */
  lemma ResolveReadsLabels(c: Codec, at: Location, tag: string, a: Answers)
    requires Resolve(c, at, tag, a).Ok?
    ensures var r := Resolve(c, at, tag, a).value;
      var labels := LabelsOf(c, at.backend, r.backendDigest, a.backend, a.backend1, a.backend2);
      && labels.Ok? && IsDigest(r.backendDigest) && IsDigest(r.frontendDigest) && HasHost(at.backend)
      && r.backendImage == at.backend && r.tag == tag
      && var stamp := StampFromLabels(labels.value);
      && r.version == (if RunMachine.Truthy(stamp.version) then stamp.version.value else tag)
      && stamp.dbRevision == r.dbRevision && stamp.minDbRevision == r.minDbRevision && stamp.gitSha == r.gitSha
      && LabelAgrees(stamp, tag)
  {
    assert FetchManifest(c, Resolve(c, at, tag, a).value.backendDigest, a.backend) ==
           Ok(ResolveDigest(c, at.backend, at.ImageTagFor(tag), a.backend).value.1);
  }

  /** The label `k`, or else `other` where `k` is missing or empty. */
  predicate LabelOr(l: Labels, k: string, other: string, value: Option<string>) {
    if k in l && l[k] != "" then value == Some(l[k])
    else value == if other in l then Some(l[other]) else None
  }

  predicate LabelIs(l: Labels, k: string, value: Option<string>) {
    value == if k in l then Some(l[k]) else None
  }

  /** Which label says what. */
  lemma StampReads(l: Labels)
    ensures LabelOr(l, "org.pinpoint311.app.version", "org.opencontainers.image.version", StampFromLabels(l).version)
    ensures LabelOr(l, "org.pinpoint311.app.git_sha", "org.opencontainers.image.revision", StampFromLabels(l).gitSha)
    ensures LabelIs(l, "org.pinpoint311.app.db_revision", StampFromLabels(l).dbRevision)
    ensures LabelIs(l, "org.pinpoint311.app.min_db_revision", StampFromLabels(l).minDbRevision)
  {
    assert PREFIX + ".version" == "org.pinpoint311.app.version";
    assert PREFIX + ".git_sha" == "org.pinpoint311.app.git_sha";
    assert PREFIX + ".db_revision" == "org.pinpoint311.app.db_revision";
    assert PREFIX + ".min_db_revision" == "org.pinpoint311.app.min_db_revision";
    assert OCI_PREFIX + ".version" == "org.opencontainers.image.version";
    assert OCI_PREFIX + ".revision" == "org.opencontainers.image.revision";
  }

  /** One half of a release: the digest is the one the registry named for the
      tag, it names the manifest that came with it, and `labels` were read from
      there on down. */
  ghost predicate Half(c: Codec, digest: string, top: Answer, a: Answer, b: Answer, labels: Labels) {
    && top.Answer? && digest == top.header && Served(c, digest, top) && c.asManifest(top.body).Some?
    && Reaches(c, c.asManifest(top.body).value, a, b, labels)
  }

  /** A label, if it is there and not empty, names the release asked for. */
  predicate NamesRelease(value: Option<string>, tag: string) {
    value.Some? && value.value != "" ==> Versions.Norm(value.value) == Versions.Norm(tag)
  }

  lemma HalfSays(c: Codec, image: string, tag: string, top: Answer, a: Answer, b: Answer, labels: Labels)
    requires ResolveDigest(c, image, tag, top).Ok?
    requires Descend(c, ResolveDigest(c, image, tag, top).value.1, a, b) == Ok(labels)
    ensures Half(c, ResolveDigest(c, image, tag, top).value.0, top, a, b, labels)
  {
    DescendIff(c, ResolveDigest(c, image, tag, top).value.1, a, b, labels);
    hide Reaches;
    hide Descend;
  }

  /** Everything a successful resolve says, in the registry's own answers: each
      half has its own image, digest and labels; the release's version, commit
      and revisions are the backend's, and the frontend's version is kept beside
      them; and neither version names another release. */
  lemma ResolveSays(c: Codec, at: Location, tag: string, a: Answers) returns (backend: Labels, frontend: Labels)
    requires Resolve(c, at, tag, a).Ok?
    ensures var r := Resolve(c, at, tag, a).value;
      && r.tag == tag && r.backendImage == at.backend && r.frontendImage == at.frontend
      && Half(c, r.backendDigest, a.backend, a.backend1, a.backend2, backend)
      && Half(c, r.frontendDigest, a.frontend, a.frontend1, a.frontend2, frontend)
      && LabelOr(backend, "org.pinpoint311.app.git_sha", "org.opencontainers.image.revision", r.gitSha)
      && LabelIs(backend, "org.pinpoint311.app.db_revision", r.dbRevision)
      && LabelIs(backend, "org.pinpoint311.app.min_db_revision", r.minDbRevision)
      && LabelOr(frontend, "org.pinpoint311.app.version", "org.opencontainers.image.version", r.frontendVersion)
      && NamesRelease(r.frontendVersion, tag)
    ensures var r := Resolve(c, at, tag, a).value; exists version ::
      && LabelOr(backend, "org.pinpoint311.app.version", "org.opencontainers.image.version", version)
      && NamesRelease(version, tag) && r.version == if version.Some? && version.value != "" then version.value else tag
  {
    var b := ResolveDigest(c, at.backend, at.ImageTagFor(tag), a.backend).value;
    var f := ResolveDigest(c, at.frontend, at.ImageTagFor(tag), a.frontend).value;
    backend := Descend(c, b.1, a.backend1, a.backend2).value;
    frontend := Descend(c, f.1, a.frontend1, a.frontend2).value;
    HalfSays(c, at.backend, at.ImageTagFor(tag), a.backend, a.backend1, a.backend2, backend);
    HalfSays(c, at.frontend, at.ImageTagFor(tag), a.frontend, a.frontend1, a.frontend2, frontend);
    StampReads(backend);
    StampReads(frontend);
    hide Half;
    hide Descend;
    hide ResolveDigest;
    hide StampFromLabels;
    hide LabelOr;
    hide LabelIs;
    hide Approval.ValidTag;
    hide Location.ImageTagFor;
  }

  /** The answers for one half bring labels whose version, if any, names the release. */
  ghost predicate HalfFits(c: Codec, top: Answer, a: Answer, b: Answer, tag: string) {
    top.Answer? && exists labels, version ::
      && Half(c, top.header, top, a, b, labels) && NamesRelease(version, tag)
      && LabelOr(labels, "org.pinpoint311.app.version", "org.opencontainers.image.version", version)
  }

  lemma HalfIff(c: Codec, at: Location, image: string, tag: string, top: Answer, a: Answer, b: Answer)
    requires Approval.ValidTag(tag) && HasHost(image)
    ensures HalfFits(c, top, a, b, tag) <==>
              && ResolveDigest(c, image, at.ImageTagFor(tag), top).Ok?
              && var m := ResolveDigest(c, image, at.ImageTagFor(tag), top).value.1;
                 Descend(c, m, a, b).Ok? && LabelAgrees(StampFromLabels(Descend(c, m, a, b).value), tag)
  {
    ImageTagIsValid(at, tag);
    if top.Answer? && c.asManifest(top.body).Some? {
      var m := c.asManifest(top.body).value;
      if Descend(c, m, a, b).Ok? {
        DescendIff(c, m, a, b, Descend(c, m, a, b).value);
        StampReads(Descend(c, m, a, b).value);
      }
      forall labels | Reaches(c, m, a, b, labels) ensures Descend(c, m, a, b) == Ok(labels) {
        DescendIff(c, m, a, b, labels);
      }
    }
    hide Reaches;
    hide Descend;
    hide StampFromLabels;
    hide Location.ImageTagFor;
  }

  lemma ImageTagIsValid(at: Location, tag: string)
    requires Approval.ValidTag(tag)
    ensures Approval.ValidTag(at.ImageTagFor(tag))
  {
    var image := at.ImageTagFor(tag);
    if image != tag && !Approval.PlainTag(tag) {
      assert image[..|image| - 1] == tag[..|tag| - 1][1..];
    }
  }

  /** A release resolves exactly when its tag is valid, both images name a host,
      and both halves are served whole and name no other release. */
  lemma ResolvesIff(c: Codec, at: Location, tag: string, a: Answers)
    ensures Resolve(c, at, tag, a).Ok? <==>
              && Approval.ValidTag(tag) && HasHost(at.backend) && HasHost(at.frontend)
              && HalfFits(c, a.backend, a.backend1, a.backend2, tag)
              && HalfFits(c, a.frontend, a.frontend1, a.frontend2, tag)
  {
    if Approval.ValidTag(tag) && HasHost(at.backend) && HasHost(at.frontend) {
      HalfIff(c, at, at.backend, tag, a.backend, a.backend1, a.backend2);
      HalfIff(c, at, at.frontend, tag, a.frontend, a.frontend1, a.frontend2);
    }
    hide HalfFits;
    hide Descend;
    hide StampFromLabels;
    hide Location.ImageTagFor;
  }

  /** The reference of each half is its own image, pinned by its own digest. */
  lemma ReleaseRefs(r: ResolvedRelease)
    requires IsDigest(r.backendDigest) && IsDigest(r.frontendDigest)
    ensures r.AsRelease().backendRef == r.backendImage + "@" + r.backendDigest
    ensures r.AsRelease().frontendRef == r.frontendImage + "@" + r.frontendDigest
    ensures r.AsRelease().version == r.version && r.AsRelease().dbRevision == r.dbRevision
            && r.AsRelease().minDbRevision == r.minDbRevision && r.AsRelease().frontendVersion == r.frontendVersion
  {
  }

  /** What resolve returns can be deployed by digest: the engine's own check for
      pinned references never fails on it. */
  lemma ResolvedIsPinned(c: Codec, at: Location, tag: string, a: Answers)
    requires Resolve(c, at, tag, a).Ok?
    ensures var rel := Resolve(c, at, tag, a).value.AsRelease();
      RunMachine.Pinned(rel.backendRef) && RunMachine.Pinned(rel.frontendRef)
  {
    ResolveReadsLabels(c, at, tag, a);
    var r := Resolve(c, at, tag, a).value;
    RefIsPinned(r.backendImage, r.backendDigest);
    RefIsPinned(r.frontendImage, r.frontendDigest);
  }

  /** Every answer of `resolve` is one an upgrade run may be handed. */
  lemma ResolvedFits(c: Codec, at: Location, tag: string, a: Answers)
    requires Resolve(c, at, tag, a).Ok?
    ensures RunMachine.Fits(Resolve(c, at, tag, a).value.AsRelease(), tag)
  {
    ResolvedIsPinned(c, at, tag, a);
  }

  lemma RefIsPinned(image: string, digest: string)
    requires IsDigest(digest)
    ensures RunMachine.Pinned(Ref(image, digest))
  {
    var ref, mark := image + "@" + digest, "@sha256:";
    assert ref[|image|..] == "@" + digest;
    assert mark == "@" + ALGORITHM && digest == ALGORITHM + digest[7..];
    assert OccursAt(mark, ref, |image|);
  }

  /** A registry that moves a tag to another release's image is caught: two tags
      that resolve to the same labelled image are the same release. */
  lemma OneImageOneRelease(c: Codec, at1: Location, at2: Location, tag1: string, tag2: string, a1: Answers, a2: Answers)
    requires Resolve(c, at1, tag1, a1).Ok? && Resolve(c, at2, tag2, a2).Ok? && NoCollision(c, Backend(a1), Backend(a2))
    requires Resolve(c, at1, tag1, a1).value.backendDigest == Resolve(c, at2, tag2, a2).value.backendDigest
    ensures var r1, r2 := Resolve(c, at1, tag1, a1).value, Resolve(c, at2, tag2, a2).value;
      && r1.dbRevision == r2.dbRevision && r1.minDbRevision == r2.minDbRevision && r1.gitSha == r2.gitSha
      && (Versioned(c, at1, a1, r1.backendDigest) ==>
         Versions.Norm(tag1) == Versions.Norm(tag2) && r1.version == r2.version)
  {
    ResolveReadsLabels(c, at1, tag1, a1);
    ResolveReadsLabels(c, at2, tag2, a2);
    LabelsAreDetermined(c, at1.backend, at2.backend, Resolve(c, at1, tag1, a1).value.backendDigest, Backend(a1),
        Backend(a2));
  }

  /** The backend image carries a version label. */
  predicate Versioned(c: Codec, at: Location, a: Answers, digest: string) {
    var labels := LabelsOf(c, at.backend, digest, a.backend, a.backend1, a.backend2);
    labels.Ok? && RunMachine.Truthy(StampFromLabels(labels.value).version)
  }

  /** Cut at an `@` inside the image's name, a reference leaves no digest. */
  lemma CutElsewhere(image: string, digest: string)
    requires IsDigest(digest) && '@' in image
    ensures var ref := image + "@" + digest; var i := Versions.IndexOf(ref, '@');
      i < |image| && !IsDigest(ref[i + 1..])
  {
    var ref := image + "@" + digest;
    var k :| 0 <= k < |image| && image[k] == '@';
    assert ref[k] == '@';
    var i := Versions.IndexOf(ref, '@');
    assert i <= k;
    var rest := ref[i + 1..];
    assert |rest| == |image| - i + |digest|;
    assert |rest| <= 72 ==> i == |image| - 1 && rest[0] == '@';
    DigestStarts(rest);
  }

  lemma DigestStarts(d: string)
    ensures IsDigest(d) ==> d[0] == 's' && |d| <= 72
  {
    assert IsDigest(d) ==> d[..7][0] == d[0] && ALGORITHM[0] == 's';
  }

  /** The stamp of a pinned reference is read from the labels of its digest. */
  lemma StampOfPinned(c: Codec, image: string, digest: string, top: Answer, a: Answer, b: Answer)
    requires IsDigest(digest) && StampForRef(c, Ref(image, digest), top, a, b).Ok?
    ensures LabelsOf(c, image, digest, top, a, b).Ok?
    ensures StampForRef(c, Ref(image, digest), top, a, b).value
            == StampFromLabels(LabelsOf(c, image, digest, top, a, b).value)
  {
    if '@' in image {
      CutElsewhere(image, digest);
    }
    Versions.FirstOccurrence(image, digest, '@');
    var ref := Ref(image, digest);
    assert ref[..|image|] == image && ref[|image| + 1..] == digest;
    hide Descend;
    hide FetchManifest;
  }

  /** A rollback that asks for the stamp of a reference an upgrade recorded is
      told what the upgrade was told. */
  lemma RollbackSeesTheSameStamp(c: Codec, at: Location, tag: string, a: Answers, xs: seq<Answer>)
    requires Resolve(c, at, tag, a).Ok? && |xs| == 3 && NoCollision(c, Backend(a), xs)
    requires StampForRef(c, Resolve(c, at, tag, a).value.BackendRef(), xs[0], xs[1], xs[2]).Ok?
    ensures var r := Resolve(c, at, tag, a).value;
            var stamp := StampForRef(c, r.BackendRef(), xs[0], xs[1], xs[2]).value;
      && stamp.dbRevision == r.dbRevision && stamp.minDbRevision == r.minDbRevision && stamp.gitSha == r.gitSha
      && (RunMachine.Truthy(stamp.version) ==> stamp.version.value == r.version)
  {
    var r := Resolve(c, at, tag, a).value;
    ResolveReadsLabels(c, at, tag, a);
    StampOfPinned(c, r.backendImage, r.backendDigest, xs[0], xs[1], xs[2]);
    LabelsAreDetermined(c, at.backend, at.backend, r.backendDigest, Backend(a), xs);
    hide Resolve;
    hide StampForRef;
    hide StampFromLabels;
    hide LabelsOf;
  }
}
