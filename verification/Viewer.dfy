/** Which HTML, blob or JSON answers a GET, and the entity tag it carries (serving/viewer.go). */
module Viewer {
  import opened Decimal
  import opened Objects
  import RealmAddress
  import ObjectIndex
  import Precondition
  import opened Resolver

  // ---- Resolving a viewer ----

  datatype Source = NoSource | Inline | Direct | TypeDefault | HubDefault

  datatype Resolution = Resolution(
    source: Source,
    pageRef: string,
    html: string,
    typeRev: int,
    pageRev: int,
    defaultRev: int,
    requiresAuth: bool
  ) {
    predicate Available() {
      source != NoSource && html != ""
    }
  }

  const NOTHING := Resolution(NoSource, "", "", 0, 0, 0, false)

  /** A file of the store as a read finds it; a ref without a file was not found. */
  datatype Stored = Unreadable | Garbled | Holds(body: Body)

  /** A viewer resolver: the store, who asks, and the requested object (None when it does not parse). */
  datatype Context = Context(
    files: map<string, Stored>,
    membership: Option<Membership>,
    requestedRef: string,
    requested: Option<Body>,
    authPubkey: string,
    enforceAccess: bool
  ) {
    predicate MayRead(b: Body) {
      enforceAccess ==> CanRead(b.Realms(), authPubkey, membership)
    }

    function LoadItem(ref: string, requiredKind: string): Option<Body> {
      if ref in files && files[ref].Holds? then
        var b := files[ref].body;
        if b.Ref() == ref && (requiredKind == "" || b.item.kind == requiredKind) && MayRead(b) then Some(b) else None
      else None
    }

    /** A readable PAGE with some HTML. */
    function UsablePage(ref: string): Option<Body> {
      var page := LoadItem(ref, "PAGE");
      if ref != "" && page.Some? && Html(page.value.item) != "" then page else None
    }
  }

  function Html(item: Item): string {
    if item.content.Fields? then item.content.html else ""
  }

  /** The ref of a relation's first entry, or "" when there is none or it does not decode. */
  function FirstRelation(item: Item, relation: string): string {
    if relation in item.relations && item.relations[relation] != [] && item.relations[relation][0].Some?
    then item.relations[relation][0].value else ""
  }

  function FromPage(page: Body): Resolution {
    NOTHING.(pageRef := page.Ref(), html := Html(page.item), pageRev := page.item.revision,
             requiresAuth := !IsPublicRead(page.Realms()))
  }

  /** The object's own viewer: itself, else its page, else the page of its type, where a chain never
      comes back to an object it has been through. */
  function Primary(c: Context): Resolution {
    if c.requested.None? || c.requested.value.Ref() != c.requestedRef then NOTHING
    else
      var body := c.requested.value;
      var page := FirstRelation(body.item, "page");
      if body.item.kind == "PAGE" then FromPage(body).(source := Inline)
      else if page != c.requestedRef && c.UsablePage(page).Some? then
        FromPage(c.UsablePage(page).value).(source := Direct)
      else TypeViewer(c, FirstRelation(body.item, "type_def"), {c.requestedRef, page})
  }

  function TypeViewer(c: Context, typeRef: string, barred: set<string>): Resolution {
    var kind := c.LoadItem(typeRef, "TYPE");
    if typeRef == "" || typeRef in barred || kind.None? then NOTHING
    else
      var page := FirstRelation(kind.value.item, "page");
      if page in barred + {typeRef} || c.UsablePage(page).None? then NOTHING
      else
        var viewer := FromPage(c.UsablePage(page).value);
        viewer.(source := TypeDefault, typeRev := kind.value.item.revision,
                requiresAuth := viewer.requiresAuth || !IsPublicRead(kind.value.Realms()))
  }

  /** The configured generic viewer: a PAGE, or an object whose page relation names one. */
  function Generic(c: Context, defaultRef: string): Resolution {
    var generic := c.LoadItem(defaultRef, "");
    if defaultRef == "" || defaultRef == c.requestedRef || generic.None? then NOTHING
    else if generic.value.item.kind == "PAGE" then
      if Html(generic.value.item) == "" then NOTHING
      else FromPage(generic.value).(source := HubDefault, defaultRev := generic.value.item.revision)
    else
      var page := FirstRelation(generic.value.item, "page");
      if page in {c.requestedRef, defaultRef} || c.UsablePage(page).None? then NOTHING
      else
        var viewer := FromPage(c.UsablePage(page).value);
        viewer.(source := HubDefault, defaultRev := generic.value.item.revision,
                requiresAuth := viewer.requiresAuth || !IsPublicRead(generic.value.Realms()))
  }

  // ---- What a viewer shows ----

  /** The ref's file holds b, under its own name, and the requester may read it. */
  predicate Reachable(c: Context, ref: string, b: Body) {
    && ref in c.files && c.files[ref] == Holds(b) && b.Ref() == ref
    && (c.enforceAccess ==> CanRead(b.Realms(), c.authPubkey, c.membership))
  }

  /** The ref's file holds a page with HTML. */
  predicate Displays(c: Context, ref: string, page: Body) {
    ref != "" && Reachable(c, ref, page) && page.item.kind == "PAGE" && Html(page.item) != ""
  }

  /** The viewer shows this page, and asks for a login unless all it used is public. */
  predicate Shows(v: Resolution, page: Body, public: bool) {
    && v.pageRef == page.Ref() && v.html == Html(page.item) && v.pageRev == page.item.revision
    && (v.requiresAuth <==> !(public && IsPublicRead(page.Realms())))
  }

  lemma OnlyOneDisplays(c: Context, ref: string, page: Body)
    ensures Displays(c, ref, page) ==> c.UsablePage(ref) == Some(page)
    ensures c.UsablePage(ref) == Some(page) ==> Displays(c, ref, page)
  {
  }

  /** A page is its own viewer. */
  lemma PageShowsItself(c: Context, b: Body)
    requires c.requested == Some(b) && b.Ref() == c.requestedRef && b.item.kind == "PAGE" && Html(b.item) != ""
    ensures var v := Primary(c); v.Available() && v.source == Inline && Shows(v, b, true)
  {
  }

  /** Another object is shown by the page it names, if that can be shown. */
  lemma ObjectShowsItsPage(c: Context, b: Body, page: Body)
    requires c.requested == Some(b) && b.Ref() == c.requestedRef && b.item.kind != "PAGE"
    requires Displays(c, FirstRelation(b.item, "page"), page) && page.Ref() != c.requestedRef
    ensures var v := Primary(c); v.Available() && v.source == Direct && Shows(v, page, true)
  {
    OnlyOneDisplays(c, FirstRelation(b.item, "page"), page);
  }

  /** The type an object names, and the page that names, form a chain without a repeat. */
  predicate LeadsOn(c: Context, b: Body, kind: Body, page: Body) {
    var own, typeRef := FirstRelation(b.item, "page"), FirstRelation(b.item, "type_def");
    && typeRef != "" && Reachable(c, typeRef, kind) && kind.item.kind == "TYPE"
    && Displays(c, FirstRelation(kind.item, "page"), page)
    && typeRef != c.requestedRef && typeRef != own && page.Ref() != c.requestedRef && page.Ref() != own
    && page.Ref() != typeRef
  }

  /** Failing that by the page of its type; and it has a viewer of its own in no other case. */
  lemma ObjectShowsTheTypesPage(c: Context, b: Body)
    requires c.requested == Some(b) && b.Ref() == c.requestedRef && b.item.kind != "PAGE"
    requires forall page | Displays(c, FirstRelation(b.item, "page"), page) :: page.Ref() == c.requestedRef
    ensures forall kind, page | LeadsOn(c, b, kind, page) ::
              var v := Primary(c);
              && v.Available() && v.source == TypeDefault && Shows(v, page, IsPublicRead(kind.Realms()))
              && v.typeRev == kind.item.revision
    ensures Primary(c).Available() ==> exists kind, page :: LeadsOn(c, b, kind, page)
  {
    var own, typeRef := FirstRelation(b.item, "page"), FirstRelation(b.item, "type_def");
    if c.UsablePage(own).Some? { OnlyOneDisplays(c, own, c.UsablePage(own).value); }
    forall kind, page | LeadsOn(c, b, kind, page)
      ensures c.LoadItem(typeRef, "TYPE") == Some(kind) && c.UsablePage(FirstRelation(kind.item, "page")) == Some(page)
    {
    }
    if Primary(c).Available() {
      var kind := c.LoadItem(typeRef, "TYPE").value;
      var page := c.UsablePage(FirstRelation(kind.item, "page")).value;
      assert LeadsOn(c, b, kind, page);
    }
  }

  /** The generic viewer is the configured page, or the page that the configured object names. */
  lemma GenericShowsWhatIsConfigured(c: Context, defaultRef: string, configured: Body, page: Body)
    requires defaultRef != "" && defaultRef != c.requestedRef && Reachable(c, defaultRef, configured)
    requires if configured.item.kind == "PAGE" then page == configured && Html(page.item) != ""
             else Displays(c, FirstRelation(configured.item, "page"), page)
                  && page.Ref() != c.requestedRef && page.Ref() != defaultRef
    ensures var v := Generic(c, defaultRef);
            && v.Available() && v.source == HubDefault && Shows(v, page, IsPublicRead(configured.Realms()))
            && v.defaultRev == configured.item.revision
  {
  }

  // ---- The resolver's own steps, over a set of visited refs ----

  class Visited {
    var refs: set<string>

    constructor (start: set<string>)
      ensures refs == start
    {
      refs := start;
    }
  }

  method LoadPage(c: Context, ref: string, visited: Visited) returns (page: Resolution, ok: bool)
    modifies visited
    ensures ok <==> ref !in old(visited.refs) && c.UsablePage(ref).Some?
    ensures page == if ok then FromPage(c.UsablePage(ref).value) else NOTHING
    ensures visited.refs == if ref == "" then old(visited.refs) else old(visited.refs) + {ref}
  {
    if ref == "" || ref in visited.refs { return NOTHING, false; }
    visited.refs := visited.refs + {ref};
    var found := c.LoadItem(ref, "PAGE");
    if found.None? { return NOTHING, false; }
    var html := Html(found.value.item);
    if html == "" { return NOTHING, false; }
    return Resolution(NoSource, ref, html, 0, found.value.item.revision, 0, !IsPublicRead(found.value.Realms())), true;
  }

  method ResolvePrimary(c: Context) returns (viewer: Resolution)
    ensures viewer == Primary(c)
  {
    if c.requested.None? || c.requested.value.Ref() != c.requestedRef { return NOTHING; }
    var body := c.requested.value;
    if body.item.kind == "PAGE" {
      return Resolution(Inline, c.requestedRef, Html(body.item), 0, body.item.revision, 0,
          !IsPublicRead(body.Realms()));
    }
    var visited := new Visited({c.requestedRef});
    var page := FirstRelation(body.item, "page");
    if page != "" {
      var direct, found := LoadPage(c, page, visited);
      if found { return direct.(source := Direct); }
    }
    var typeRef := FirstRelation(body.item, "type_def");
    if typeRef == "" || typeRef in visited.refs { return NOTHING; }
    visited.refs := visited.refs + {typeRef};
    var kind := c.LoadItem(typeRef, "TYPE");
    if kind.None? { return NOTHING; }
    var typePage := FirstRelation(kind.value.item, "page");
    if typePage == "" { return NOTHING; }
    var inherited, ok := LoadPage(c, typePage, visited);
    if !ok { return NOTHING; }
    return inherited.(source := TypeDefault, typeRev := kind.value.item.revision,
                      requiresAuth := inherited.requiresAuth || !IsPublicRead(kind.value.Realms()));
  }

  method ResolveDefault(c: Context, defaultRef: string) returns (viewer: Resolution)
    ensures viewer == Generic(c, defaultRef)
  {
    if defaultRef == "" || defaultRef == c.requestedRef { return NOTHING; }
    var generic := c.LoadItem(defaultRef, "");
    if generic.None? { return NOTHING; }
    if generic.value.item.kind == "PAGE" {
      var html := Html(generic.value.item);
      if html == "" { return NOTHING; }
      var rev := generic.value.item.revision;
      return Resolution(HubDefault, defaultRef, html, 0, rev, rev, !IsPublicRead(generic.value.Realms()));
    }
    var page := FirstRelation(generic.value.item, "page");
    if page == "" { return NOTHING; }
    var visited := new Visited({c.requestedRef, defaultRef});
    var loaded, ok := LoadPage(c, page, visited);
    if !ok { return NOTHING; }
    return loaded.(source := HubDefault, defaultRev := generic.value.item.revision,
                   requiresAuth := loaded.requiresAuth || !IsPublicRead(generic.value.Realms()));
  }

  // ---- Choosing a representation ----

  /** What the Accept header admits. */
  datatype Accept = Accept(html: bool, mimes: set<string>)

  /** The bytes a BLOB's content yields: neither data nor text, corrupt base64, or these. */
  datatype Servable = Empty | Corrupt | Bytes(data: nat)

  datatype Selection = Json | Blob(mime: string, data: nat) | Page(viewer: Resolution)

  function Mime(item: Item): string {
    if item.content.Fields? then item.content.mimeType else ""
  }

  /** blobContent and decode, once the MIME type is accepted. */
  function RawBlob(c: Context, bytes: Item -> Servable, accept: Accept): Option<Selection> {
    if c.requested.None? then None else
    var item := c.requested.value.item;
    if item.kind == "BLOB" && Mime(item) != "" && Mime(item) in accept.mimes && bytes(item).Bytes? then
      Some(Blob(Mime(item), bytes(item).data))
    else None
  }

  function Negotiated(c: Context, defaultRef: string, bytes: Item -> Servable, accept: Accept): Selection {
    if accept.html && Primary(c).Available() then Page(Primary(c))
    else if RawBlob(c, bytes, accept).Some? then RawBlob(c, bytes, accept).value
    else if accept.html && Generic(c, defaultRef).Available() then Page(Generic(c, defaultRef))
    else Json
  }

  function PageOnly(c: Context, defaultRef: string): Option<Selection> {
    if Primary(c).Available() then Some(Page(Primary(c)))
    else if Generic(c, defaultRef).Available() then Some(Page(Generic(c, defaultRef)))
    else None
  }

  /** s answers a request in c: through negotiation, or as the forced page. */
  predicate Answers(s: Selection, c: Context, defaultRef: string, bytes: Item -> Servable, accept: Accept) {
    s == Negotiated(c, defaultRef, bytes, accept) || Some(s) == PageOnly(c, defaultRef)
  }

  /** The bytes a BLOB answers with, when its type is accepted and its content yields any. */
  predicate OffersBytes(c: Context, bytes: Item -> Servable, accept: Accept) {
    && c.requested.Some?
    && var item := c.requested.value.item;
       item.kind == "BLOB" && Mime(item) != "" && Mime(item) in accept.mimes && bytes(item).Bytes?
  }

  /** The order of representations: the object's own viewer, where HTML is accepted, then its bytes,
      then the hub's generic viewer, where HTML is accepted, and JSON when there is nothing else. */
  lemma RepresentationsInOrder(c: Context, defaultRef: string, bytes: Item -> Servable, accept: Accept)
    ensures var s, own, generic := Negotiated(c, defaultRef, bytes, accept), Primary(c), Generic(c, defaultRef);
            var ownShows := accept.html && own.Available();
            && (s.Blob? <==> OffersBytes(c, bytes, accept) && !ownShows)
            && (s.Page? <==> ownShows || (accept.html && generic.Available() && !OffersBytes(c, bytes, accept)))
            && (s.Page? ==> s.viewer == if ownShows then own else generic)
            && (s.Blob? ==> s == Blob(Mime(c.requested.value.item), bytes(c.requested.value.item).data))
  {
  }

  /** The generic viewer only ever takes the place of JSON. */
  lemma GenericOnlyReplacesJson(c: Context, defaultRef: string, bytes: Item -> Servable, accept: Accept)
    ensures Negotiated(c, "", bytes, accept) != Json ==>
            Negotiated(c, defaultRef, bytes, accept) == Negotiated(c, "", bytes, accept)
  {
  }

  /** A forced page is the one a browser that takes nothing but HTML is shown. */
  lemma ForcedPageIsTheHtmlAnswer(c: Context, defaultRef: string, bytes: Item -> Servable)
    ensures var s := Negotiated(c, defaultRef, bytes, Accept(true, {}));
            PageOnly(c, defaultRef) == if s.Page? then Some(s) else None
  {
  }

  // ---- Entity tags ----

  function Suffix(v: Resolution): string {
    match v.source
    case Direct => "-p" + Itoa(v.pageRev) + "-html"
    case TypeDefault => "-t" + Itoa(v.typeRev) + "-p" + Itoa(v.pageRev) + "-html"
    case HubDefault => "-g" + Itoa(v.defaultRev) + "-p" + Itoa(v.pageRev) + "-html"
    case Inline => "-html"
    case NoSource => "-html"
  }

  function ETag(s: Selection, revision: int): string {
    match s
    case Json => "\"" + Itoa(revision) + "\""
    case Blob(_, _) => "\"" + Itoa(revision) + "-blob\""
    case Page(viewer) => "\"" + Itoa(revision) + Suffix(viewer) + "\""
  }

  /** The first non-digit of a text ends every run of digits that starts it. */
  lemma RunEnds(text: string, start: nat, a: string, x: string, b: string, y: string)
    requires text == a + x == b + y && x != "" && !IsDigit(x[0]) && start <= |a|
    requires forall i | start <= i < |b| :: IsDigit(b[i])
    ensures |b| <= |a|
  {
    assert text[|a|] == x[0];
    assert forall i | start <= i < |b| :: IsDigit(text[i]) by { assert text[..|b|] == b; }
  }

  lemma ItoaIsDigits(n: int)
    ensures |Itoa(n)| >= 1 && forall i | 1 <= i < |Itoa(n)| :: IsDigit(Itoa(n)[i])
  {
    assert n < 0 ==> Itoa(n)[1..] == Digits(-n);
  }

  /** A decimal number ends where the first other character is, so a tag can be read back in one way. */
  lemma NumberEnds(m: int, x: string, n: int, y: string)
    requires Itoa(m) + x == Itoa(n) + y
    requires x != "" && y != "" && !IsDigit(x[0]) && !IsDigit(y[0])
    ensures m == n && x == y
  {
    var text, a, b := Itoa(m) + x, Itoa(m), Itoa(n);
    ItoaIsDigits(m);
    ItoaIsDigits(n);
    RunEnds(text, 1, a, x, b, y);
    RunEnds(text, 1, b, y, a, x);
    assert a == text[..|a|] == b;
    assert x == text[|a|..] == y;
    ItoaInjective(m, n);
  }

  function AfterRevision(s: Selection): string {
    match s
    case Json => "\""
    case Blob(_, _) => "-blob\""
    case Page(viewer) => Suffix(viewer) + "\""
  }

  function FirstNumber(v: Resolution): int {
    if v.source == TypeDefault then v.typeRev else v.defaultRev
  }

  /** What follows the two-letter mark of a suffix. */
  function PageNumbers(v: Resolution): string {
    if v.source == Direct then PageNumber(v) else Itoa(FirstNumber(v)) + ("-p" + PageNumber(v))
  }

  predicate Numbered(v: Resolution) {
    v.source in {Direct, TypeDefault, HubDefault}
  }

  lemma Assoc(a: string, b: string, c: string)
    ensures (a + b) + c == a + (b + c)
  {
  }

  lemma EndsWithPage(before: string, n: string)
    ensures before + n + "-html" + "\"" == before + (n + "-html\"")
  {
    Assoc(before + n, "-html", "\"");
    assert "-html" + "\"" == "-html\"";
    Assoc(before, n, "-html\"");
  }

  lemma TwoNumbers(mark: string, a: string, n: string)
    ensures mark + a + "-p" + n + "-html" + "\"" == mark + (a + ("-p" + (n + "-html\"")))
  {
    EndsWithPage(mark + a + "-p", n);
    Assoc(mark + a, "-p", n + "-html\"");
    Assoc(mark, a, "-p" + (n + "-html\""));
  }

  lemma SuffixShape(v: Resolution)
    ensures Suffix(v) + "\"" == if Numbered(v) then "-" + [Mark(v)] + PageNumbers(v) else "-html\""
  {
    assert "-p" == "-" + ['p'] && "-t" == "-" + ['t'] && "-g" == "-" + ['g'];
    match v.source
    case Direct => EndsWithPage("-p", Itoa(v.pageRev));
    case TypeDefault => TwoNumbers("-t", Itoa(v.typeRev), Itoa(v.pageRev));
    case HubDefault => TwoNumbers("-g", Itoa(v.defaultRev), Itoa(v.pageRev));
    case _ => assert "-html" + "\"" == "-html\"";
  }

  function Mark(v: Resolution): char {
    match v.source case Direct => 'p' case TypeDefault => 't' case HubDefault => 'g' case _ => 'h'
  }

  lemma DropMark(mark: char, rest: string)
    ensures var s := "-" + [mark] + rest; s[1] == mark && s[2..] == rest
  {
  }

  /** The page's revision and the -html mark. */
  function PageNumber(v: Resolution): string {
    Itoa(v.pageRev) + "-html\""
  }

  lemma PageNumberDetermines(v: Resolution, w: Resolution)
    requires PageNumber(v) == PageNumber(w)
    ensures v.pageRev == w.pageRev
  {
    NumberEnds(v.pageRev, "-html\"", w.pageRev, "-html\"");
  }

  lemma TwoNumbersDetermine(a: int, v: Resolution, b: int, w: Resolution)
    requires Itoa(a) + ("-p" + PageNumber(v)) == Itoa(b) + ("-p" + PageNumber(w))
    ensures a == b && v.pageRev == w.pageRev
  {
    var x, y := "-p" + PageNumber(v), "-p" + PageNumber(w);
    NumberEnds(a, x, b, y);
    assert PageNumber(v) == x[2..] && PageNumber(w) == y[2..];
    PageNumberDetermines(v, w);
  }

  lemma SuffixDetermines(v: Resolution, w: Resolution)
    requires v.source != NoSource && w.source != NoSource
    requires Suffix(v) + "\"" == Suffix(w) + "\""
    ensures v.source == w.source
    ensures Numbered(v) ==> v.pageRev == w.pageRev
    ensures v.source == TypeDefault ==> v.typeRev == w.typeRev
    ensures v.source == HubDefault ==> v.defaultRev == w.defaultRev
  {
    SuffixShape(v);
    SuffixShape(w);
    DropMark(Mark(v), PageNumbers(v));
    DropMark(Mark(w), PageNumbers(w));
    if Numbered(v) {
      if v.source == Direct {
        PageNumberDetermines(v, w);
      } else {
        TwoNumbersDetermine(FirstNumber(v), v, FirstNumber(w), w);
      }
    }
  }

  predicate Proper(s: Selection) {
    s.Page? ==> s.viewer.Available()
  }

  lemma AfterRevisionShape(s: Selection)
    requires Proper(s)
    ensures var x := AfterRevision(s);
            && x != "" && !IsDigit(x[0])
            && (s.Json? <==> |x| == 1)
            && (!s.Json? ==> |x| > 1 && x[1] == if s.Blob? then 'b' else Mark(s.viewer))
  {
    if s.Page? { SuffixShape(s.viewer); }
  }

  lemma TagSplits(s: Selection, m: int)
    ensures ETag(s, m)[1..] == Itoa(m) + AfterRevision(s)
  {
    assert ETag(s, m) == "\"" + (Itoa(m) + AfterRevision(s));
  }

  /** A tag names its kind of representation, the revision, the route the viewer was found by, and
      the revision of every object on that route. */
  lemma TagDetermines(s: Selection, m: int, t: Selection, n: int)
    requires Proper(s) && Proper(t) && ETag(s, m) == ETag(t, n)
    ensures m == n && (s.Json? <==> t.Json?) && (s.Blob? <==> t.Blob?)
    ensures s.Page? ==> s.viewer.source == t.viewer.source
                        && (Numbered(s.viewer) ==> s.viewer.pageRev == t.viewer.pageRev)
                        && (s.viewer.source == TypeDefault ==> s.viewer.typeRev == t.viewer.typeRev)
                        && (s.viewer.source == HubDefault ==> s.viewer.defaultRev == t.viewer.defaultRev)
  {
    TagSplits(s, m);
    TagSplits(t, n);
    AfterRevisionShape(s);
    AfterRevisionShape(t);
    NumberEnds(m, AfterRevision(s), n, AfterRevision(t));
    if s.Page? && t.Page? { SuffixDetermines(s.viewer, t.viewer); }
  }

  // ---- Soundness ----

  /** b can be served or consulted in c. */
  predicate Known(c: Context, b: Body) {
    c.requested == Some(b) || (exists ref :: ref in c.files && c.files[ref] == Holds(b))
  }

  /** In the two states, a ref and a revision determine the item. */
  ghost predicate Versioned(c: Context, d: Context) {
    forall a, b :: Known(c, a) && Known(d, b) && a.Ref() == b.Ref() && a.item.revision == b.item.revision
        ==> SameItem(a, b)
  }

  lemma LoadedAgree(c: Context, d: Context, ref: string, kind: string)
    requires Versioned(c, d) && c.LoadItem(ref, kind).Some? && d.LoadItem(ref, kind).Some?
    requires c.LoadItem(ref, kind).value.item.revision == d.LoadItem(ref, kind).value.item.revision
    ensures c.LoadItem(ref, kind).value.item == d.LoadItem(ref, kind).value.item
  {
    var a, b := c.LoadItem(ref, kind).value, d.LoadItem(ref, kind).value;
    assert Known(c, a) && Known(d, b);
    assert SameItem(a, b);
  }

  /** Primary viewers of one requested item, by the same route with the same revisions, show the same page. */
  lemma PrimaryAgrees(c: Context, d: Context)
    requires Versioned(c, d) && c.requestedRef == d.requestedRef
    requires Primary(c).Available() && Primary(d).Available()
    requires c.requested.value.item.revision == d.requested.value.item.revision
    requires Primary(c).source == Primary(d).source
    requires Numbered(Primary(c)) ==> Primary(c).pageRev == Primary(d).pageRev
    requires Primary(c).source == TypeDefault ==> Primary(c).typeRev == Primary(d).typeRev
    ensures Primary(c).html == Primary(d).html && Primary(c).pageRef == Primary(d).pageRef
  {
    var a, b := c.requested.value, d.requested.value;
    assert Known(c, a) && Known(d, b);
    assert SameItem(a, b);
    if Primary(c).source == Direct {
      LoadedAgree(c, d, FirstRelation(a.item, "page"), "PAGE");
    } else if Primary(c).source == TypeDefault {
      var typeRef := FirstRelation(a.item, "type_def");
      LoadedAgree(c, d, typeRef, "TYPE");
      LoadedAgree(c, d, FirstRelation(c.LoadItem(typeRef, "TYPE").value.item, "page"), "PAGE");
    }
  }

  lemma GenericAgrees(c: Context, d: Context, defaultRef: string)
    requires Versioned(c, d) && c.requestedRef == d.requestedRef
    requires Generic(c, defaultRef).Available() && Generic(d, defaultRef).Available()
    requires Generic(c, defaultRef).defaultRev == Generic(d, defaultRef).defaultRev
    requires Generic(c, defaultRef).pageRev == Generic(d, defaultRef).pageRev
    ensures Generic(c, defaultRef).html == Generic(d, defaultRef).html
    ensures Generic(c, defaultRef).pageRef == Generic(d, defaultRef).pageRef
  {
    LoadedAgree(c, d, defaultRef, "");
    var item := c.LoadItem(defaultRef, "").value.item;
    if item.kind != "PAGE" {
      LoadedAgree(c, d, FirstRelation(item, "page"), "PAGE");
    }
  }

  /** Two selections show the same thing: HTML by the same route from the same page, the same bytes
      under the same type, or JSON of the same item. */
  predicate SameView(s: Selection, a: Body, t: Selection, b: Body) {
    match (s, t)
    case (Page(v), Page(w)) => v.source == w.source && v.html == w.html && v.pageRef == w.pageRef
    case (Blob(_, _), Blob(_, _)) => s == t
    case (Json, Json) => SameItem(a, b)
    case (_, _) => false
  }

  lemma GenericShape(c: Context, defaultRef: string)
    requires Generic(c, defaultRef).Available()
    ensures var v := Generic(c, defaultRef);
            v.source == HubDefault && c.LoadItem(v.pageRef, "PAGE").Some?
            && v == FromPage(c.LoadItem(v.pageRef, "PAGE").value).(
                      source := HubDefault, defaultRev := v.defaultRev, requiresAuth := v.requiresAuth)
  {
  }

  /** Tags of pages shown by generic viewers, from any two hubs whatever their configuration, are
      equal exactly when three revisions are: neither the configured ref nor the page's enters. */
  lemma GenericTagsCompareRevisions(c: Context, r: string, m: int, d: Context, r': string, n: int)
    requires Generic(c, r).Available() && Generic(d, r').Available()
    ensures var v, w := Generic(c, r), Generic(d, r');
            ETag(Page(v), m) == ETag(Page(w), n) <==> m == n && v.defaultRev == w.defaultRev && v.pageRev == w.pageRev
  {
    var v, w := Generic(c, r), Generic(d, r');
    GenericShape(c, r);
    GenericShape(d, r');
    if ETag(Page(v), m) == ETag(Page(w), n) {
      TagDetermines(Page(v), m, Page(w), n);
    }
  }

  /** One page at one revision is one HTML, whichever generic viewer led to it. */
  lemma GenericPagesAgree(c: Context, r: string, d: Context, r': string)
    requires Versioned(c, d) && Generic(c, r).Available() && Generic(d, r').Available()
    requires Generic(c, r).pageRef == Generic(d, r').pageRef && Generic(c, r).pageRev == Generic(d, r').pageRev
    ensures Generic(c, r).html == Generic(d, r').html
  {
    GenericShape(c, r);
    GenericShape(d, r');
    LoadedAgree(c, d, Generic(c, r).pageRef, "PAGE");
  }

  /** The page a generic viewer leads to: itself when it is a PAGE, else its page relation. */
  function GenericPageRef(c: Context, defaultRef: string): string {
    var generic := c.LoadItem(defaultRef, "");
    if generic.None? then "" else if generic.value.item.kind == "PAGE" then defaultRef
        else FirstRelation(generic.value.item, "page")
  }

  lemma GenericLeadsToItsPage(c: Context, defaultRef: string)
    requires Generic(c, defaultRef).Available()
    ensures Generic(c, defaultRef).pageRef == GenericPageRef(c, defaultRef)
  {
  }

  /** The caches are safe, exactly: whatever the two store states, realm memberships, requesters,
      Accept headers and configured viewers, equal tags on answers for one ref mean the same
      representation if and only if they are not generic views, or the two configured viewers lead
      to the same page. */
  lemma EqualTagsShowTheSame(c: Context, s: Selection, accept: Accept, defaultRef: string,
                             d: Context, t: Selection, accept': Accept, defaultRef': string, bytes: Item -> Servable)
    requires Versioned(c, d) && c.requested.Some? && d.requested.Some? && c.requestedRef == d.requestedRef
    requires s.Page? || (c.requested.value.Ref() == c.requestedRef == d.requested.value.Ref())
    requires Answers(s, c, defaultRef, bytes, accept) && Answers(t, d, defaultRef', bytes, accept')
    requires ETag(s, c.requested.value.item.revision) == ETag(t, d.requested.value.item.revision)
    ensures SameView(s, c.requested.value, t, d.requested.value) <==>
            (s.Page? && s.viewer.source == HubDefault
             ==> GenericPageRef(c, defaultRef) == GenericPageRef(d, defaultRef'))
    ensures defaultRef == defaultRef' ==> SameView(s, c.requested.value, t, d.requested.value)
  {
    var a, b := c.requested.value, d.requested.value;
    TagDetermines(s, a.item.revision, t, b.item.revision);
    if !s.Page? {
      assert Known(c, a) && Known(d, b);
      assert SameItem(a, b);
    } else if s.viewer.source == HubDefault {
      GenericViewsCompare(c, defaultRef, d, defaultRef');
    } else {
      PrimaryAgrees(c, d);
    }
  }

  lemma GenericViewsCompare(c: Context, r: string, d: Context, r': string)
    requires Versioned(c, d) && c.requestedRef == d.requestedRef && Generic(c, r).Available()
             && Generic(d, r').Available()
    requires Generic(c, r).defaultRev == Generic(d, r').defaultRev && Generic(c, r).pageRev == Generic(d, r').pageRev
    ensures GenericPageRef(c, r) == GenericPageRef(d, r') <==> Generic(c, r).pageRef == Generic(d, r').pageRef
    ensures GenericPageRef(c, r) == GenericPageRef(d, r') ==> Generic(c, r).html == Generic(d, r').html
    ensures r == r' ==> GenericPageRef(c, r) == GenericPageRef(d, r')
  {
    GenericLeadsToItsPage(c, r);
    GenericLeadsToItsPage(d, r');
    if Generic(c, r).pageRef == Generic(d, r').pageRef {
      GenericPagesAgree(c, r, d, r');
    }
    if r == r' {
      GenericAgrees(c, d, r);
    }
  }

  function PublicPage(pubkey: string, id: string, html: string, time: int): Body {
    Body(Item(pubkey, id, "PAGE", 1, [GLOBAL_REALM], Some(time), map[], Fields(html, "", "", 0)), [], 0, true)
  }

  lemma ShownAsGeneric(c: Context, page: Body)
    requires page.Ref() in c.files && c.files[page.Ref()] == Holds(page) && page.item.kind == "PAGE"
    requires Html(page.item) != "" && IsPublicRead(page.Realms()) && page.Ref() != c.requestedRef && page.Ref() != ""
    ensures Generic(c, page.Ref()) == FromPage(page).(source := HubDefault, defaultRev := page.item.revision)
  {
  }

  lemma RefsApart(pubkey: string, a: string, b: string)
    ensures (pubkey + "." + a == pubkey + "." + b) <==> a == b
  {
    assert (pubkey + "." + a)[|pubkey| + 1..] == a;
    assert (pubkey + "." + b)[|pubkey| + 1..] == b;
  }

  lemma RefIsValid(pubkey: string, id: string)
    requires 43 <= |pubkey| <= 44 && RealmAddress.IsBase64URLChars(pubkey) && RealmAddress.IsCanonicalUUID(id)
    ensures RealmAddress.IsValidRef(pubkey + "." + id)
  {
    var ref := pubkey + "." + id;
    assert ref[..|ref| - 37] == pubkey && ref[|ref| - 36..] == id && ref[|ref| - 37] == '.';
  }

  /** A public note, and a store that holds two public pages besides, all three at revision 1. */
  function TwoPages(pubkey: string, id1: string, id2: string, id3: string, html1: string, html2: string,
                    time: int): Context {
    var one, two, note := PublicPage(pubkey, id1, html1, time), PublicPage(pubkey, id2, html2, time),
        PublicPage(pubkey, id3, "", time);
    Context(map[one.Ref() := Holds(one), two.Ref() := Holds(two)], None, note.Ref(),
        Some(note.(item := note.item.(kind := "NOTE"))), "", true)
  }

  lemma NegotiatesGeneric(c: Context, defaultRef: string, bytes: Item -> Servable)
    requires !Primary(c).Available() && Generic(c, defaultRef).Available()
    ensures Negotiated(c, defaultRef, bytes, Accept(true, {})) == Page(Generic(c, defaultRef))
  {
  }

  lemma TwoPagesShow(pubkey: string, id1: string, id2: string, id3: string, html1: string, html2: string, time: int)
    requires id1 != id2 && id1 != id3 && id2 != id3 && html1 != "" && html2 != ""
    ensures var c := TwoPages(pubkey, id1, id2, id3, html1, html2, time);
            var v, w := Generic(c, pubkey + "." + id1), Generic(c, pubkey + "." + id2);
            && !Primary(c).Available() && v.Available() && w.Available()
            && v.html == html1 && w.html == html2 && v.defaultRev == w.defaultRev && v.pageRev == w.pageRev
  {
    var c := TwoPages(pubkey, id1, id2, id3, html1, html2, time);
    RefsApart(pubkey, id1, id2);
    RefsApart(pubkey, id1, id3);
    RefsApart(pubkey, id2, id3);
    ShownAsGeneric(c, PublicPage(pubkey, id1, html1, time));
    ShownAsGeneric(c, PublicPage(pubkey, id2, html2, time));
  }

  /** The failing inputs, as a hub can receive them: for any signer, any three ids, any timestamp and
      any two texts, reconfiguring the hub from one of two public pages of revision 1 to the other
      serves a third object with the other text under the same tag. */
  lemma ReconfiguredDefaultReusesTags(pubkey: string, id1: string, id2: string, id3: string, html1: string,
                                      html2: string,
                                      time: int, bytes: Item -> Servable)
    requires 43 <= |pubkey| <= 44 && RealmAddress.IsBase64URLChars(pubkey) && id1 != id2 && id1 != id3 && id2 != id3
    requires RealmAddress.IsCanonicalUUID(id1) && RealmAddress.IsCanonicalUUID(id2) && RealmAddress.IsCanonicalUUID(id3)
    requires html1 != "" && html2 != "" && html1 != html2
    ensures var c := TwoPages(pubkey, id1, id2, id3, html1, html2, time);
            var r1, r2 := pubkey + "." + id1, pubkey + "." + id2;
            var s, t := Negotiated(c, r1, bytes, Accept(true, {})), Negotiated(c, r2, bytes, Accept(true, {}));
            && RealmAddress.IsValidRef(r1) && RealmAddress.IsValidRef(r2) && RealmAddress.IsValidRef(c.requestedRef)
            && s.Page? && t.Page? && ETag(s, 1) == ETag(t, 1) && s.viewer.html == html1 && t.viewer.html == html2
  {
    var c := TwoPages(pubkey, id1, id2, id3, html1, html2, time);
    var r1, r2 := pubkey + "." + id1, pubkey + "." + id2;
    TwoPagesShow(pubkey, id1, id2, id3, html1, html2, time);
    NegotiatesGeneric(c, r1, bytes);
    NegotiatesGeneric(c, r2, bytes);
    GenericTagsCompareRevisions(c, r1, 1, c, r2, 1);
    RefIsValid(pubkey, id1);
    RefIsValid(pubkey, id2);
    RefIsValid(pubkey, id3);
  }

  /** Such inputs exist. */
  lemma SuchInputsExist()
    ensures exists pubkey, id1, id2, id3 :: 43 <= |pubkey| <= 44 && RealmAddress.IsBase64URLChars(pubkey)
              && RealmAddress.IsCanonicalUUID(id1) && RealmAddress.IsCanonicalUUID(id2)
                 && RealmAddress.IsCanonicalUUID(id3)
              && id1 != id2 && id1 != id3 && id2 != id3
  {
    var pubkey := seq(44, _ => 'A');
    var a, b, c := seq(16, _ => 1), seq(16, _ => 2), seq(16, _ => 3);
    RealmAddress.ParseFormat(a);
    RealmAddress.ParseFormat(b);
    RealmAddress.ParseFormat(c);
    assert a[0] != b[0] && a[0] != c[0] && b[0] != c[0];
    assert RealmAddress.IsBase64URLChars(pubkey);
  }

  // ---- Access ----

  /** A body the HTML is drawn from: the requested page itself, or what the resolution loaded. */
  predicate DrawnFrom(c: Context, v: Resolution, defaultRef: string, b: Body) {
    || (v.source == Inline && c.requested == Some(b))
    || (v.source == Direct && c.UsablePage(v.pageRef) == Some(b))
    || (v.source == TypeDefault && c.requested.Some? && (c.UsablePage(v.pageRef) == Some(b)
          || c.LoadItem(FirstRelation(c.requested.value.item, "type_def"), "TYPE") == Some(b)))
    || (v.source == HubDefault && (c.UsablePage(v.pageRef) == Some(b) || c.LoadItem(defaultRef, "") == Some(b)))
  }

  predicate Draws(c: Context, v: Resolution, defaultRef: string, b: Body) {
    v.Available() && DrawnFrom(c, v, defaultRef, b)
  }

  /** Once the handler has let a request pass, HTML is drawn only from objects its requester may
      read, unless it is the requested page itself and the index did not have the realms of the page
      that was then read. Each is public unless the answer is marked private, and a viewer that is
      not the object itself is never the object. */
  lemma ViewersRespectAccess(c: Context, v: Resolution, defaultRef: string, indexed: Option<Meta>, b: Body)
    requires LetsPass(indexed, c.authPubkey, c.membership)
    requires (v == Primary(c) || v == Generic(c, defaultRef)) && Draws(c, v, defaultRef, b)
    ensures c.MayRead(b) || (v.source == Inline && (indexed.Some? ==> indexed.value.realms != b.Realms()))
    ensures !v.requiresAuth ==> IsPublicRead(b.Realms())
    ensures if v.source == Inline then v.pageRef == b.Ref() == c.requestedRef
            else v.pageRef != c.requestedRef && b.Ref() != c.requestedRef
  {
  }

  /** And an unreadable object, once let pass, is drawn on exactly when it is a page with some HTML. */
  lemma UnreadablePageShowsItself(c: Context, defaultRef: string, b: Body)
    requires c.requested == Some(b) && b.Ref() == c.requestedRef && !c.MayRead(b)
    ensures Draws(c, Primary(c), defaultRef, b) || Draws(c, Generic(c, defaultRef), defaultRef, b) <==>
            b.item.kind == "PAGE" && Html(b.item) != ""
  {
  }

  // ---- The answer without a read ----

  /** indexedNonHTMLValidator, from the kind, MIME type and revision the index keeps. */
  function IndexedValidator(accept: Accept, kind: string, mime: string, revision: int): Option<string> {
    if accept.html then None
    else if kind == "BLOB" && mime != "" && mime in accept.mimes then Some(ETag(Blob("", 0), revision))
    else Some(ETag(Json, revision))
  }

  /** The index entry says of an object what reading it would: the page it names, its type as a blob,
      who may read it. */
  lemma IndexEntrySaysWhatReadingWould(b: Body, time: int)
    ensures var meta := ObjectIndex.MetaOf(b.Ref(), ObjectIndex.Stored(b.item, time, b.Realms()));
            && meta.ref == b.Ref() && meta.pubkey == b.item.pubkey && meta.kind == b.item.kind
            && meta.revision == b.item.revision && meta.updatedAt == time
            && meta.pageRef == FirstRelation(b.item, "page")
            && meta.mimeType == (if b.item.kind == "BLOB" then Mime(b.item) else "")
            && meta.realms == b.AsMeta().realms
            && (meta.isPublic <==> "dataverse001" in b.Realms() || "server-public" in b.Realms())
            && (meta.isPublic <==> CanRead(meta.realms, "", None))
  {
  }

  /** Where HTML is accepted the index answers nothing; elsewhere the tag it answers with is the tag a
      full selection would give, except exactly for an accepted BLOB whose content yields no bytes. */
  lemma ValidatorNeedsNoRead(c: Context, defaultRef: string, bytes: Item -> Servable, accept: Accept, time: int)
    requires c.requested.Some?
    ensures var b := c.requested.value;
            var item := b.item;
            var meta := ObjectIndex.MetaOf(b.Ref(), ObjectIndex.Stored(item, time, b.Realms()));
            var validator := IndexedValidator(accept, meta.kind, meta.mimeType, meta.revision);
            && (validator.None? <==> accept.html)
            && (!accept.html ==> (validator.value == ETag(Negotiated(c, defaultRef, bytes, accept), item.revision) <==>
                 (item.kind == "BLOB" && Mime(item) != "" && Mime(item) in accept.mimes ==> bytes(item).Bytes?)))
  {
    var rev := c.requested.value.item.revision;
    IndexEntrySaysWhatReadingWould(c.requested.value, time);
    TagSplits(Json, rev);
    TagSplits(Blob("", 0), rev);
    assert |ETag(Json, rev)| != |ETag(Blob("", 0), rev)|;
  }

  // ---- The tag on the next write ----

  predicate Clean(s: string) {
    forall i | 0 <= i < |s| :: s[i] != ',' && !Precondition.IsSpace(s[i])
  }

  lemma CleanConcat(a: string, b: string)
    requires Clean(a) && Clean(b)
    ensures Clean(a + b)
  {
  }

  lemma ItoaIsClean(n: int)
    ensures Clean(Itoa(n))
  {
    ItoaIsDigits(n);
    assert n < 0 ==> Itoa(n)[0] == '-';
    assert n >= 0 ==> IsDigit(Itoa(n)[0]);
  }

  lemma SuffixIsClean(v: Resolution)
    ensures Clean(Suffix(v))
  {
    ItoaIsClean(v.pageRev);
    ItoaIsClean(v.typeRev);
    ItoaIsClean(v.defaultRev);
    CleanConcat("-t", Itoa(v.typeRev));
    CleanConcat("-t" + Itoa(v.typeRev), "-p");
    CleanConcat("-t" + Itoa(v.typeRev) + "-p", Itoa(v.pageRev));
    CleanConcat("-t" + Itoa(v.typeRev) + "-p" + Itoa(v.pageRev), "-html");
    CleanConcat("-g", Itoa(v.defaultRev));
    CleanConcat("-g" + Itoa(v.defaultRev), "-p");
    CleanConcat("-g" + Itoa(v.defaultRev) + "-p", Itoa(v.pageRev));
    CleanConcat("-g" + Itoa(v.defaultRev) + "-p" + Itoa(v.pageRev), "-html");
    CleanConcat("-p", Itoa(v.pageRev));
    CleanConcat("-p" + Itoa(v.pageRev), "-html");
  }

  lemma RestIsClean(s: Selection)
    ensures Clean(AfterRevision(s))
  {
    if s.Page? {
      SuffixIsClean(s.viewer);
      CleanConcat(Suffix(s.viewer), "\"");
    }
  }

  lemma TagIsClean(s: Selection, revision: int)
    ensures Clean(ETag(s, revision)) && ETag(s, revision) != "" && ETag(s, revision)[0] == '"'
  {
    ItoaIsClean(revision);
    RestIsClean(s);
    CleanConcat(Itoa(revision), AfterRevision(s));
    TagSplits(s, revision);
    CleanFromSecond(ETag(s, revision));
  }

  lemma CleanFromSecond(tag: string)
    requires tag != "" && tag[0] == '"' && Clean(tag[1..])
    ensures Clean(tag)
  {
    forall i | 0 <= i < |tag| ensures tag[i] != ',' && !Precondition.IsSpace(tag[i]) {
      assert i > 0 ==> tag[i] == tag[1..][i - 1];
    }
  }

  /** The round trip of optimistic locking: the tag of a JSON answer, sent back with If-Match, passes
      exactly as long as the object is at the revision that was answered; the tag of a page or a blob
      never passes. */
  lemma TagOnTheNextWrite(s: Selection, revision: int, stored: Option<int>)
    requires Proper(s)
    ensures Precondition.EvaluateIfMatch(ETag(s, revision), stored) ==
            if s.Json? && stored == Some(revision) then Precondition.Pass else Precondition.Fail
  {
    var tag := ETag(s, revision);
    TagIsClean(s, revision);
    assert Precondition.TrimSpace(tag) == tag;
    Precondition.SplitPlain(tag);
    assert Precondition.Tags([tag]) == [tag] + Precondition.Tags([]);
    if stored.Some? {
      assert Precondition.RevisionETag(stored.value) == ETag(Json, stored.value);
      if tag == ETag(Json, stored.value) {
        TagDetermines(s, revision, Json, stored.value);
      }
    }
  }
}
