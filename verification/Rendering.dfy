/** The files rendered from locked documentation bundles. Two documents of a bundle can render to the same
    path; every file keeps its own contents exactly when none do. */
module Rendering {
  import GeneratedTree

  /** A path below the public root, by its names. */
  type Path = seq<string>

  /** A quickstart or framework document: its path in the bundle, the raw file with its provenance header,
      and the snippet made from it. */
  datatype Document = Document(path: Path, raw: string, snippet: string)
  {
    /** The header is a comment and a snippet starts with a tag, so the two texts always differ. */
    predicate Valid() {
      path != [] && raw != "" && raw[0] == '/' && snippet != "" && snippet[0] == '<'
    }
  }

  predicate DocumentsValid(ds: seq<Document>) {
    forall i :: 0 <= i < |ds| ==> ds[i].Valid()
  }

  datatype Catalog = Catalog(name: string, text: string)

  datatype Bundle = Bundle(sdk: string, documents: seq<Document>, catalogs: seq<Catalog>, page: string)
  {
    /** The manifest lists every path once, and a catalog is listed by its name. */
    ghost predicate Valid() {
      && DocumentsValid(documents)
      && (forall i, j :: 0 <= i < j < |documents| ==> documents[i].path != documents[j].path)
      && (forall i, j :: 0 <= i < j < |catalogs| ==> catalogs[i].name != catalogs[j].name)
    }
  }

  // ---------------------------------------------------------------- paths

  /** `with_name`: the last name with a suffix added. */
  function Renamed(path: Path, suffix: string): Path
    requires path != []
  {
    path[..|path| - 1] + [path[|path| - 1] + suffix]
  }

  predicate EndsWith(s: string, suffix: string) {
    |s| >= |suffix| && s[|s| - |suffix|..] == suffix
  }

  /** `suffix` is `.md`: a leading dot does not start a suffix. */
  predicate Markdown(path: Path)
    requires path != []
  {
    var name := path[|path| - 1];
    |name| > 3 && EndsWith(name, ".md")
  }

  const SNIPPETS: Path := ["snippets", "generated"]
  const CATALOGS: Path := ["config", "sdk-bundles"]
  const PAGES: Path := ["reference", "sdk-bundles"]
  const MANIFEST: Path := ["config", "generated-sdk-bundles.json"]
  const OVERVIEW: Path := ["reference", "sdk-bundles.mdx"]

  /** One rendered file and where it comes from. */
  datatype Output =
    | RawFile(sdk: string, document: Document)
    | SnippetFile(sdk: string, document: Document)
    | CatalogFile(sdk: string, catalog: Catalog)
    | PageFile(sdk: string, page: string)
    | OverviewFile(overview: string)
    | ManifestFile(manifest: string)
  {
    predicate Valid() {
      RawFile? || SnippetFile? ==> document.Valid()
    }

    function Destination(): Path
      requires Valid()
    {
      match this
      case RawFile(sdk, d) => SNIPPETS + [sdk] + (if Markdown(d.path) then Renamed(d.path, ".txt") else d.path)
      case SnippetFile(sdk, d) => SNIPPETS + [sdk] + Renamed(d.path, ".mdx")
      case CatalogFile(sdk, c) => CATALOGS + [sdk, c.name]
      case PageFile(sdk, _) => PAGES + [sdk + ".mdx"]
      case OverviewFile(_) => OVERVIEW
      case ManifestFile(_) => MANIFEST
    }

    function Text(): string {
      match this
      case RawFile(_, d) => d.raw
      case SnippetFile(_, d) => d.snippet
      case CatalogFile(_, c) => c.text
      case PageFile(_, page) => page
      case OverviewFile(overview) => overview
      case ManifestFile(manifest) => manifest
    }
  }

  // ---------------------------------------------------------------- when two files have one path

  lemma AppendCancels(a: string, b: string, suffix: string)
    ensures a + suffix == b + suffix <==> a == b
  {
    assert (a + suffix)[..|a|] == a;
    assert (b + suffix)[..|b|] == b;
  }

  lemma RenamedCancels(p: Path, q: Path, suffix: string)
    requires p != [] && q != []
    ensures Renamed(p, suffix) == Renamed(q, suffix) <==> p == q
  {
    var r, t := Renamed(p, suffix), Renamed(q, suffix);
    if r == t {
      assert r[..|r| - 1] == p[..|p| - 1] && t[..|t| - 1] == q[..|q| - 1];
      assert r[|r| - 1] == p[|p| - 1] + suffix && t[|t| - 1] == q[|q| - 1] + suffix;
      AppendCancels(p[|p| - 1], q[|q| - 1], suffix);
      assert p == p[..|p| - 1] + [p[|p| - 1]] && q == q[..|q| - 1] + [q[|q| - 1]];
    }
  }

  lemma LastName(p: Path, suffix: string)
    requires p != [] && suffix != ""
    ensures var r := Renamed(p, suffix); r != [] && r[|r| - 1] == p[|p| - 1] + suffix && r[|r| - 1] != ""
    ensures var name := Renamed(p, suffix)[|p| - 1]; name[|name| - 1] == suffix[|suffix| - 1]
  {}

  lemma LastLetter(name: string)
    ensures EndsWith(name, ".md") ==> name[|name| - 1] == 'd'
  {
    if EndsWith(name, ".md") { assert name[|name| - 3..][2] == 'd'; }
  }

  /** Both suffixes that rendering adds end in a letter that `.md` does not. */
  lemma RenamedIsNotMarkdown(p: Path, suffix: string)
    requires p != [] && (suffix == ".mdx" || suffix == ".txt")
    ensures !Markdown(Renamed(p, suffix))
  {
    LastName(p, suffix);
    var r := Renamed(p, suffix);
    LastLetter(r[|r| - 1]);
  }

  lemma DifferentSuffixes(p: Path, q: Path)
    requires p != [] && q != []
    ensures Renamed(p, ".txt") != Renamed(q, ".mdx")
  {
    LastName(p, ".txt");
    LastName(q, ".mdx");
  }

  lemma SameBelow(root: Path, sdk: string, p: Path, other: string, q: Path)
    ensures root + [sdk] + p == root + [other] + q <==> sdk == other && p == q
  {
    var a, b := root + [sdk] + p, root + [other] + q;
    assert a[|root|] == sdk && b[|root|] == other;
    assert a[|root| + 1..] == p && b[|root| + 1..] == q;
  }

  /** The raw file of `p` takes the path of the raw file of `q`. */
  predicate TextClash(p: Path, q: Path)
    requires p != []
  {
    Markdown(p) && q == Renamed(p, ".txt")
  }

  /** The snippet of `p` takes the path of the raw file of `q`. */
  predicate SnippetClash(p: Path, q: Path)
    requires p != []
  {
    q == Renamed(p, ".mdx")
  }

  lemma RawMeetsRaw(x: Output, y: Output)
    requires x.Valid() && y.Valid() && x.RawFile? && y.RawFile?
    ensures x.Destination() == y.Destination() <==>
            x.sdk == y.sdk && (x.document.path == y.document.path || TextClash(x.document.path, y.document.path) || TextClash(y.document.path, x.document.path))
  {
    var p, q := x.document.path, y.document.path;
    SameBelow(SNIPPETS, x.sdk, if Markdown(p) then Renamed(p, ".txt") else p, y.sdk, if Markdown(q) then Renamed(q, ".txt") else q);
    RenamedCancels(p, q, ".txt");
    RenamedIsNotMarkdown(p, ".txt");
    RenamedIsNotMarkdown(q, ".txt");
  }

  lemma RawMeetsSnippet(x: Output, y: Output)
    requires x.Valid() && y.Valid() && x.RawFile? && y.SnippetFile?
    ensures x.Destination() == y.Destination() <==> x.sdk == y.sdk && SnippetClash(y.document.path, x.document.path)
  {
    var p, q := x.document.path, y.document.path;
    SameBelow(SNIPPETS, x.sdk, if Markdown(p) then Renamed(p, ".txt") else p, y.sdk, Renamed(q, ".mdx"));
    DifferentSuffixes(p, q);
    RenamedIsNotMarkdown(q, ".mdx");
  }

  lemma SnippetMeetsSnippet(x: Output, y: Output)
    requires x.Valid() && y.Valid() && x.SnippetFile? && y.SnippetFile?
    ensures x.Destination() == y.Destination() <==> x.sdk == y.sdk && x.document.path == y.document.path
  {
    SameBelow(SNIPPETS, x.sdk, Renamed(x.document.path, ".mdx"), y.sdk, Renamed(y.document.path, ".mdx"));
    RenamedCancels(x.document.path, y.document.path, ".mdx");
  }

  /** Everything else is told apart by its directory and its name. */
  lemma OthersMeet(x: Output, y: Output)
    requires x.Valid() && y.Valid() && !(x.RawFile? || x.SnippetFile?)
    ensures x.Destination() == y.Destination() <==>
            match x
            case CatalogFile(sdk, c) => y.CatalogFile? && y.sdk == sdk && y.catalog.name == c.name
            case PageFile(sdk, _) => y.PageFile? && y.sdk == sdk
            case OverviewFile(_) => y.OverviewFile?
            case ManifestFile(_) => y.ManifestFile?
            case _ => false
  {
    var p, q := x.Destination(), y.Destination();
    assert p[0] == match x { case CatalogFile(_, _) => "config" case ManifestFile(_) => "config" case _ => "reference" };
    assert q[0] == match y { case CatalogFile(_, _) => "config" case ManifestFile(_) => "config" case PageFile(_, _) => "reference" case OverviewFile(_) => "reference" case _ => "snippets" };
    if x.CatalogFile? && y.CatalogFile? { assert p[2] == x.sdk && p[3] == x.catalog.name && q[2] == y.sdk && q[3] == y.catalog.name; }
    if x.PageFile? && y.PageFile? { assert p[2] == x.sdk + ".mdx" && q[2] == y.sdk + ".mdx"; AppendCancels(x.sdk, y.sdk, ".mdx"); }
  }

  // ---------------------------------------------------------------- rendering

  function DocumentFiles(sdk: string, ds: seq<Document>): (outputs: seq<Output>)
    ensures forall x :: x in outputs <==> (x.RawFile? || x.SnippetFile?) && x.sdk == sdk && x.document in ds
  {
    if ds == [] then []
    else DocumentFiles(sdk, ds[..|ds| - 1]) + [RawFile(sdk, ds[|ds| - 1]), SnippetFile(sdk, ds[|ds| - 1])]
  }

  function CatalogFiles(sdk: string, cs: seq<Catalog>): (outputs: seq<Output>)
    ensures forall x :: x in outputs <==> x.CatalogFile? && x.sdk == sdk && x.catalog in cs
  {
    if cs == [] then [] else CatalogFiles(sdk, cs[..|cs| - 1]) + [CatalogFile(sdk, cs[|cs| - 1])]
  }

  function BundleFiles(b: Bundle): seq<Output> {
    DocumentFiles(b.sdk, b.documents) + CatalogFiles(b.sdk, b.catalogs) + [PageFile(b.sdk, b.page)]
  }

  function AllBundleFiles(bs: seq<Bundle>): seq<Output> {
    if bs == [] then [] else AllBundleFiles(bs[..|bs| - 1]) + BundleFiles(bs[|bs| - 1])
  }

  lemma {:induction false} BundleIncluded(bs: seq<Bundle>, k: nat, x: Output)
    requires k < |bs| && x in BundleFiles(bs[k])
    ensures x in AllBundleFiles(bs)
  {
    if k < |bs| - 1 { BundleIncluded(bs[..|bs| - 1], k, x); }
  }

  lemma {:induction false} BundleOf(bs: seq<Bundle>, x: Output) returns (k: nat)
    requires x in AllBundleFiles(bs)
    ensures k < |bs| && x in BundleFiles(bs[k])
  {
    if x in BundleFiles(bs[|bs| - 1]) { return |bs| - 1; }
    k := BundleOf(bs[..|bs| - 1], x);
  }

  /** The files in the order in which they are rendered. */
  function Files(bs: seq<Bundle>, overview: string, manifest: string): seq<Output> {
    AllBundleFiles(bs) + [OverviewFile(overview), ManifestFile(manifest)]
  }

  predicate AllValid(files: seq<Output>) {
    forall i :: 0 <= i < |files| ==> files[i].Valid()
  }

  ghost predicate ValidBundles(bs: seq<Bundle>) {
    && (forall i :: 0 <= i < |bs| ==> bs[i].Valid())
    && (forall i, j :: 0 <= i < j < |bs| ==> bs[i].sdk != bs[j].sdk)
  }

  /** Every file has its own contents at its own path. */
  ghost predicate Kept(files: seq<Output>, outputs: map<Path, string>)
    requires AllValid(files)
  {
    forall i :: 0 <= i < |files| ==> files[i].Destination() in outputs && outputs[files[i].Destination()] == files[i].Text()
  }

  /** Files with one path have one text. */
  ghost predicate Consistent(files: seq<Output>)
    requires AllValid(files)
  {
    forall i, j :: 0 <= i < |files| && 0 <= j < |files| && files[i].Destination() == files[j].Destination() ==> files[i].Text() == files[j].Text()
  }

  /** A later file replaces an earlier one. */
  method Render(files: seq<Output>) returns (outputs: map<Path, string>)
    requires AllValid(files)
    ensures forall p :: p in outputs <==> exists i :: 0 <= i < |files| && files[i].Destination() == p
    ensures Kept(files, outputs) <==> Consistent(files)
  {
    outputs := map[];
    for k := 0 to |files|
      invariant forall p :: p in outputs <==> exists i :: 0 <= i < k && files[i].Destination() == p
      invariant forall p :: p in outputs ==> exists i :: 0 <= i < k && files[i].Destination() == p && files[i].Text() == outputs[p]
    {
      outputs := outputs[files[k].Destination() := files[k].Text()];
    }
    if Consistent(files) {
      forall i | 0 <= i < |files| ensures files[i].Destination() in outputs && outputs[files[i].Destination()] == files[i].Text() {}
    }
  }

  /** No document renders over another. */
  ghost predicate Unclashing(ds: seq<Document>)
    requires DocumentsValid(ds)
  {
    forall i, j :: 0 <= i < |ds| && 0 <= j < |ds| ==>
      !SnippetClash(ds[i].path, ds[j].path) && (TextClash(ds[i].path, ds[j].path) ==> ds[i].raw == ds[j].raw)
  }

  ghost predicate NoClash(bs: seq<Bundle>)
    requires ValidBundles(bs)
  {
    forall k :: 0 <= k < |bs| && bs[k].Valid() ==> Unclashing(bs[k].documents)
  }

  lemma FilesValid(bs: seq<Bundle>, overview: string, manifest: string)
    requires ValidBundles(bs)
    ensures AllValid(Files(bs, overview, manifest))
  {
    var files := Files(bs, overview, manifest);
    forall i | 0 <= i < |files| ensures files[i].Valid() {
      if files[i].RawFile? || files[i].SnippetFile? {
        assert files[i] in AllBundleFiles(bs);
        var k := FromBundle(bs, files[i]);
      }
    }
  }

  /** The bundle a file belongs to. */
  lemma FromBundle(bs: seq<Bundle>, x: Output) returns (k: nat)
    requires ValidBundles(bs) && x in AllBundleFiles(bs)
    ensures k < |bs| && x in BundleFiles(bs[k]) && !x.OverviewFile? && !x.ManifestFile? && x.sdk == bs[k].sdk
    ensures (x.RawFile? || x.SnippetFile?) ==> x.document in bs[k].documents && x.document.Valid()
    ensures x.CatalogFile? ==> x.catalog in bs[k].catalogs
    ensures x.PageFile? ==> x.page == bs[k].page
  {
    k := BundleOf(bs, x);
    var b := bs[k];
    assert x in DocumentFiles(b.sdk, b.documents) || x in CatalogFiles(b.sdk, b.catalogs) || x == PageFile(b.sdk, b.page);
  }

  lemma BundleFile(bs: seq<Bundle>, k: nat, x: Output, files: seq<Output>, overview: string, manifest: string) returns (i: nat)
    requires k < |bs| && x in BundleFiles(bs[k]) && files == Files(bs, overview, manifest)
    ensures i < |files| && files[i] == x
  {
    BundleIncluded(bs, k, x);
    assert x in files;
    i :| 0 <= i < |files| && files[i] == x;
  }

  lemma ConsistentIsUnclashing(bs: seq<Bundle>, overview: string, manifest: string, k: nat, i: nat, j: nat)
    requires ValidBundles(bs) && AllValid(Files(bs, overview, manifest)) && Consistent(Files(bs, overview, manifest))
    requires k < |bs| && i < |bs[k].documents| && j < |bs[k].documents| && bs[k].documents[i].Valid() && bs[k].documents[j].Valid()
    ensures var ds := bs[k].documents;
            !SnippetClash(ds[i].path, ds[j].path) && (TextClash(ds[i].path, ds[j].path) ==> ds[i].raw == ds[j].raw)
  {
    var b, files := bs[k], Files(bs, overview, manifest);
    var raw, other, snippet := RawFile(b.sdk, b.documents[j]), RawFile(b.sdk, b.documents[i]), SnippetFile(b.sdk, b.documents[i]);
    assert raw in DocumentFiles(b.sdk, b.documents) && other in DocumentFiles(b.sdk, b.documents) && snippet in DocumentFiles(b.sdk, b.documents);
    var u := BundleFile(bs, k, raw, files, overview, manifest);
    var v := BundleFile(bs, k, other, files, overview, manifest);
    var w := BundleFile(bs, k, snippet, files, overview, manifest);
    RawMeetsSnippet(raw, snippet);
    RawMeetsRaw(other, raw);
    assert files[u].Destination() == files[w].Destination() ==> files[u].Text() == files[w].Text();
    assert files[u].Destination() == files[v].Destination() ==> files[u].Text() == files[v].Text();
  }

  /** Within one bundle. */
  lemma DocumentsAgree(b: Bundle, x: Output, y: Output)
    requires b.Valid() && Unclashing(b.documents) && x.Valid() && y.Valid() && x.Destination() == y.Destination()
    requires (x.RawFile? || x.SnippetFile?) && (y.RawFile? || y.SnippetFile?) && x.document in b.documents && y.document in b.documents
    ensures x.Text() == y.Text()
  {
    var ds := b.documents;
    var i :| 0 <= i < |ds| && ds[i] == x.document;
    var j :| 0 <= j < |ds| && ds[j] == y.document;
    assert !SnippetClash(ds[i].path, ds[j].path) && !SnippetClash(ds[j].path, ds[i].path);
    assert ds[i].path == ds[j].path ==> i == j;
    match (x, y)
    case (RawFile(_, _), RawFile(_, _)) => RawMeetsRaw(x, y);
    case (RawFile(_, _), SnippetFile(_, _)) => RawMeetsSnippet(x, y);
    case (SnippetFile(_, _), RawFile(_, _)) => RawMeetsSnippet(y, x);
    case (SnippetFile(_, _), SnippetFile(_, _)) => SnippetMeetsSnippet(x, y);
  }

  /** One path means one bundle. */
  lemma SameSdk(x: Output, y: Output)
    requires x.Valid() && y.Valid() && x.Destination() == y.Destination()
    ensures x.OverviewFile? <==> y.OverviewFile?
    ensures x.ManifestFile? <==> y.ManifestFile?
    ensures x.CatalogFile? <==> y.CatalogFile?
    ensures x.PageFile? <==> y.PageFile?
    ensures !x.OverviewFile? && !x.ManifestFile? ==> x.sdk == y.sdk
    ensures x.CatalogFile? ==> x.catalog.name == y.catalog.name
  {
    if !(x.RawFile? || x.SnippetFile?) {
      OthersMeet(x, y);
    } else if !(y.RawFile? || y.SnippetFile?) {
      OthersMeet(y, x);
    } else {
      assert x.Destination()[2] == x.sdk && y.Destination()[2] == y.sdk;
    }
  }

  lemma BundleFilesAgree(bs: seq<Bundle>, x: Output, y: Output)
    requires ValidBundles(bs) && NoClash(bs) && x.Valid() && y.Valid() && x.Destination() == y.Destination()
    requires x in AllBundleFiles(bs) && y in AllBundleFiles(bs)
    ensures x.Text() == y.Text()
  {
    SameSdk(x, y);
    var i := FromBundle(bs, x);
    var j := FromBundle(bs, y);
    assert i == j;
    var b := bs[i];
    assert b.Valid() && Unclashing(b.documents);
    if x.CatalogFile? {
      SameCatalog(b, x.catalog, y.catalog);
    } else if !x.PageFile? {
      DocumentsAgree(b, x, y);
    }
  }

  lemma SameCatalog(b: Bundle, c: Catalog, d: Catalog)
    requires b.Valid() && c in b.catalogs && d in b.catalogs && c.name == d.name
    ensures c == d
  {}

  lemma SingleFile(bs: seq<Bundle>, overview: string, manifest: string, x: Output)
    requires ValidBundles(bs) && x in Files(bs, overview, manifest)
    ensures if x.OverviewFile? then x.overview == overview else if x.ManifestFile? then x.manifest == manifest else x in AllBundleFiles(bs)
  {
    if x in AllBundleFiles(bs) { var i := FromBundle(bs, x); }
  }

  lemma FilesAgree(bs: seq<Bundle>, overview: string, manifest: string, x: Output, y: Output)
    requires ValidBundles(bs) && NoClash(bs) && x.Valid() && y.Valid() && x.Destination() == y.Destination()
    requires x in Files(bs, overview, manifest) && y in Files(bs, overview, manifest)
    ensures x.Text() == y.Text()
  {
    SameSdk(x, y);
    SingleFile(bs, overview, manifest, x);
    SingleFile(bs, overview, manifest, y);
    if !x.OverviewFile? && !x.ManifestFile? { BundleFilesAgree(bs, x, y); }
  }

  /** Every rendered file is kept exactly when no document of a bundle is named like another one with
      `.mdx` added, or like a Markdown one with `.txt` added and a different raw file. */
  lemma RenderedExact(bs: seq<Bundle>, overview: string, manifest: string)
    requires ValidBundles(bs)
    ensures AllValid(Files(bs, overview, manifest)) && (Consistent(Files(bs, overview, manifest)) <==> NoClash(bs))
  {
    var files := Files(bs, overview, manifest);
    FilesValid(bs, overview, manifest);
    if Consistent(files) {
      forall k | 0 <= k < |bs| && bs[k].Valid() ensures Unclashing(bs[k].documents) {
        var ds := bs[k].documents;
        forall i, j | 0 <= i < |ds| && 0 <= j < |ds|
          ensures !SnippetClash(ds[i].path, ds[j].path) && (TextClash(ds[i].path, ds[j].path) ==> ds[i].raw == ds[j].raw)
        {
          ConsistentIsUnclashing(bs, overview, manifest, k, i, j);
        }
      }
    }
    if NoClash(bs) {
      forall i, j | 0 <= i < |files| && 0 <= j < |files| && files[i].Destination() == files[j].Destination()
        ensures files[i].Text() == files[j].Text()
      {
        FilesAgree(bs, overview, manifest, files[i], files[j]);
      }
    }
  }

  /** `render_outputs`. */
  method RenderOutputs(bs: seq<Bundle>, overview: string, manifest: string) returns (outputs: map<Path, string>)
    requires ValidBundles(bs)
    ensures AllValid(Files(bs, overview, manifest)) && (Kept(Files(bs, overview, manifest), outputs) <==> NoClash(bs))
  {
    RenderedExact(bs, overview, manifest);
    outputs := Render(Files(bs, overview, manifest));
  }

  predicate Named(ds: seq<Document>, suffix: string)
    requires DocumentsValid(ds)
  {
    exists i :: 0 <= i < |ds| && EndsWith(ds[i].path[|ds[i].path| - 1], suffix)
  }

  lemma AddedSuffix(p: Path, suffix: string)
    requires p != [] && suffix != ""
    ensures EndsWith(Renamed(p, suffix)[|p| - 1], suffix)
  {
    LastName(p, suffix);
    var name := p[|p| - 1] + suffix;
    assert name[|name| - |suffix|..] == suffix;
  }

  /** Documents of which none ends in `.mdx` or `.txt` never clash. */
  lemma PlainSuffixesSuffice(ds: seq<Document>)
    requires DocumentsValid(ds) && !Named(ds, ".mdx") && !Named(ds, ".txt")
    ensures Unclashing(ds)
  {
    forall i, j | 0 <= i < |ds| && 0 <= j < |ds|
      ensures !SnippetClash(ds[i].path, ds[j].path) && !TextClash(ds[i].path, ds[j].path)
    {
      AddedSuffix(ds[i].path, ".mdx");
      AddedSuffix(ds[i].path, ".txt");
    }
  }

  /** A document `x` and a document `x.mdx`: one of the two files is lost. */
  lemma ClashingDocuments() returns (b: Bundle)
    ensures ValidBundles([b]) && !NoClash([b])
  {
    var x := Document(["x"], "/", "<");
    var y := Document(Renamed(x.path, ".mdx"), "/", "<");
    assert |y.path[0]| == |x.path[0]| + 4;
    var ds := [x, y];
    b := Bundle("js", ds, [], "");
    assert DocumentsValid(ds) && SnippetClash(ds[0].path, ds[1].path);
    assert b.Valid() && [b][0] == b;
    assert !Unclashing(b.documents);
  }

  // ---------------------------------------------------------------- under the managed roots

  function Numbered(number: string -> int, path: Path): GeneratedTree.Path {
    seq(|path|, i requires 0 <= i < |path| => number(path[i]))
  }

  function Managed(number: string -> int): GeneratedTree.Layout {
    GeneratedTree.Layout([Numbered(number, SNIPPETS), Numbered(number, CATALOGS), Numbered(number, PAGES)],
                         [Numbered(number, MANIFEST), Numbered(number, OVERVIEW)])
  }

  /** However names are numbered, the layout is proper and every rendered file lies in it: what writing
      the files asks of them. */
  lemma RenderedIsManaged(number: string -> int, x: Output)
    requires x.Valid() && forall a, b :: number(a) == number(b) ==> a == b
    ensures Managed(number).Valid() && GeneratedTree.Managed(Managed(number), Numbered(number, x.Destination()))
  {
    var l, p := Managed(number), Numbered(number, x.Destination());
    assert l.roots[0][0] == number("snippets") && l.roots[1][0] == number("config") && l.roots[2][0] == number("reference");
    match x
    case RawFile(_, _) => assert GeneratedTree.Below(p, l.roots[0]);
    case SnippetFile(_, _) => assert GeneratedTree.Below(p, l.roots[0]);
    case CatalogFile(_, _) => assert GeneratedTree.Below(p, l.roots[1]);
    case PageFile(_, _) => assert GeneratedTree.Below(p, l.roots[2]);
    case OverviewFile(_) => assert p == l.singles[1];
    case ManifestFile(_) => assert p == l.singles[0];
  }
}
