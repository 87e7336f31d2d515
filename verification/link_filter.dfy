/** The filter of link attributes as a function: validators, the first valid attribute of each name. */
module LinkFilter {
  import opened Basics

  datatype Attr = Attr(name: string, payload: string, isFlag: bool)

  const REL := Attr("rel", "noopener noreferrer", false)
  const MAX_TITLE_LENGTH: nat := 65

  /** String operations of the standard library: lower case, trimming, and URL schemes. */
  datatype Library = Library(lower: string -> string, trim: string -> string, scheme: string -> Option<string>)

  ghost predicate WfLibrary(lib: Library) {
    lib.lower("rel") == "rel"
  }

  datatype LinkIssue =
    | NeedsValue(name: string) | IsEmpty(name: string) | HasControls(name: string)
    | HrefInvalid | HrefProtocolRelative | HrefScheme(scheme: string) | TargetUnknown | TitleTooLong

  // ---- validators ----

  /** A payload after the common checks. */
  function BasicLinkCheck(lib: Library, a: Attr, name: string): (r: (Option<LinkIssue>, string)) {
    var payload := lib.trim(a.payload);
    if a.isFlag then (Some(NeedsValue(name)), "")
    else if payload == "" then (Some(IsEmpty(name)), "")
    else if '\0' in payload || '\r' in payload || '\n' in payload || '\t' in payload then (Some(HasControls(name)), "")
    else (None, payload)
  }

  predicate IsProtocolRelative(s: string) {
    |s| >= 2 && s[0] == '/' && s[1] == '/'
  }

  function HrefIssue(lib: Library, a: Attr): Option<LinkIssue> {
    var (issue, payload) := BasicLinkCheck(lib, a, "href");
    if issue.Some? then issue
    else
      match lib.scheme(payload)
      case None => Some(HrefInvalid)
      case Some(scheme) =>
        var s := lib.lower(scheme);
        if s == "" then (if IsProtocolRelative(payload) then Some(HrefProtocolRelative) else None)
        else if s == "http" || s == "https" || s == "mailto" then None
        else Some(HrefScheme(scheme))
  }

  function TargetIssue(lib: Library, a: Attr): Option<LinkIssue> {
    var (issue, payload) := BasicLinkCheck(lib, a, "target");
    if issue.Some? then issue
    else if payload == "_blank" || payload == "_self" then None
    else Some(TargetUnknown)
  }

  predicate IsBlank(lib: Library, a: Attr) {
    !a.isFlag && lib.trim(a.payload) == "_blank"
  }

  function TitleIssue(lib: Library, a: Attr): Option<LinkIssue> {
    var (issue, payload) := BasicLinkCheck(lib, a, "title");
    if issue.Some? then issue else if |payload| > MAX_TITLE_LENGTH then Some(TitleTooLong) else None
  }

  function AttrName(lib: Library, a: Attr): string {
    if a.isFlag then lib.lower(a.payload) else lib.lower(a.name)
  }

  predicate IsAllowedName(name: string) {
    name == "href" || name == "target" || name == "title"
  }

  function IssueOf(lib: Library, a: Attr): Option<LinkIssue>
    requires IsAllowedName(AttrName(lib, a))
  {
    var name := AttrName(lib, a);
    if name == "href" then HrefIssue(lib, a) else if name == "target" then TargetIssue(lib, a) else TitleIssue(lib, a)
  }

  // ---- the filter as a function ----

  /** An attribute that is allowed and passes its validator. */
  predicate Passes(lib: Library, a: Attr) {
    IsAllowedName(AttrName(lib, a)) && IssueOf(lib, a) == None
  }

  /** What a kept attribute contributes to the output. */
  function Output(lib: Library, a: Attr): seq<Attr> {
    if AttrName(lib, a) == "target" && IsBlank(lib, a) then [a, REL] else [a]
  }

  datatype Filter = Filter(kept: seq<Attr>, seen: set<string>, issues: seq<LinkIssue>)

  const EMPTY := Filter([], {}, [])

  function Sift(lib: Library, f: Filter, a: Attr): Filter {
    var name := AttrName(lib, a);
    if !IsAllowedName(name) || name in f.seen then f
    else
      match IssueOf(lib, a)
      case Some(issue) => f.(issues := f.issues + [issue])
      case None => Filter(f.kept + Output(lib, a), f.seen + {name}, f.issues)
  }

  /** The first valid attribute of each name, in order. */
  function Sifted(lib: Library, attrs: seq<Attr>): Filter {
    if attrs == [] then EMPTY else Sift(lib, Sifted(lib, attrs[..|attrs| - 1]), attrs[|attrs| - 1])
  }

  // ---- what the filter keeps ----

  /** Attribute j is the first valid one of its name. */
  predicate Chosen(lib: Library, attrs: seq<Attr>, j: nat) {
    && j < |attrs| && Passes(lib, attrs[j])
    && forall i :: 0 <= i < j ==> !(Passes(lib, attrs[i]) && AttrName(lib, attrs[i]) == AttrName(lib, attrs[j]))
  }

  /** The outputs of the chosen attributes before n, in order. */
  function Selected(lib: Library, attrs: seq<Attr>, n: nat): seq<Attr>
    requires n <= |attrs|
  {
    if n == 0 then []
    else Selected(lib, attrs, n - 1) + (if Chosen(lib, attrs, n - 1) then Output(lib, attrs[n - 1]) else [])
  }

  ghost predicate SeenIs(lib: Library, attrs: seq<Attr>, n: nat, seen: set<string>)
    requires n <= |attrs|
  {
    && (forall name :: name in seen ==> exists i :: 0 <= i < n && Passes(lib, attrs[i]) && AttrName(lib, attrs[i]) == name)
    && (forall i :: 0 <= i < n && Passes(lib, attrs[i]) ==> AttrName(lib, attrs[i]) in seen)
  }

  /** Sifting keeps exactly the first valid attribute of each name. */
  lemma {:induction false} SiftedIsSelected(lib: Library, attrs: seq<Attr>, n: nat)
    requires n <= |attrs|
    ensures Sifted(lib, attrs[..n]).kept == Selected(lib, attrs, n)
    ensures SeenIs(lib, attrs, n, Sifted(lib, attrs[..n]).seen)
  {
    hide IssueOf, Output;
    if n > 0 {
      SiftedIsSelected(lib, attrs, n - 1);
      assert attrs[..n][..n - 1] == attrs[..n - 1];
      var f := Sifted(lib, attrs[..n - 1]);
      assert Passes(lib, attrs[n - 1]) ==> (Chosen(lib, attrs, n - 1) <==> AttrName(lib, attrs[n - 1]) !in f.seen);
    }
  }

  ghost predicate IsValidTarget(lib: Library, a: Attr) {
    AttrName(lib, a) == "target" && Passes(lib, a)
  }

  /** The k-th kept attribute passed its validator or is the `rel` of the blank target before it; a
   *  blank target has its `rel` behind it. */
  ghost predicate KeptWell(lib: Library, kept: seq<Attr>, k: nat)
    requires k < |kept|
  {
    && (Passes(lib, kept[k]) || (kept[k] == REL && k > 0 && BlankTarget(lib, kept[k - 1])))
    && (BlankTarget(lib, kept[k]) ==> k + 1 < |kept| && kept[k + 1] == REL)
  }

  ghost predicate WellKept(lib: Library, kept: seq<Attr>) {
    forall k :: 0 <= k < |kept| ==> KeptWell(lib, kept, k)
  }

  ghost predicate BlankTarget(lib: Library, a: Attr) {
    IsValidTarget(lib, a) && IsBlank(lib, a)
  }

  ghost predicate NamesDistinct(lib: Library, kept: seq<Attr>) {
    forall i, k :: 0 <= i < k < |kept| ==> AttrName(lib, kept[i]) != AttrName(lib, kept[k])
  }

  ghost predicate NamesSeen(lib: Library, f: Filter) {
    && (forall k :: 0 <= k < |f.kept| ==>
          AttrName(lib, f.kept[k]) in f.seen || (AttrName(lib, f.kept[k]) == "rel" && "target" in f.seen))
    && (forall name :: name in f.seen ==> IsAllowedName(name))
  }

  /** An accepted attribute of a new name, with its output. */
  ghost predicate Accepts(lib: Library, f: Filter, a: Attr) {
    AttrName(lib, a) !in f.seen && Passes(lib, a)
  }

  lemma {:induction false} OutputWellKept(lib: Library, kept: seq<Attr>, a: Attr)
    requires WfLibrary(lib) && WellKept(lib, kept) && Passes(lib, a)
    ensures WellKept(lib, kept + Output(lib, a))
  {
    hide Passes, IsBlank;
    var n, all := |kept|, kept + Output(lib, a);
    assert !BlankTarget(lib, REL) by { assert AttrName(lib, REL) == "rel"; }
    assert Output(lib, a) == if BlankTarget(lib, a) then [a, REL] else [a];
    forall k | 0 <= k < |all| ensures KeptWell(lib, all, k) {
      if k < n {
        assert KeptWell(lib, kept, k);
      } else if k == n {
        assert all[k] == a;
      } else {
        assert all[k] == REL && all[k - 1] == a;
      }
    }
  }

  lemma {:induction false} OutputDistinct(lib: Library, f: Filter, a: Attr)
    requires WfLibrary(lib) && NamesDistinct(lib, f.kept) && NamesSeen(lib, f) && Accepts(lib, f, a)
    ensures var g := Filter(f.kept + Output(lib, a), f.seen + {AttrName(lib, a)}, f.issues);
      NamesDistinct(lib, g.kept) && NamesSeen(lib, g)
  {
    hide IssueOf, IsBlank;
    var n, all := |f.kept|, f.kept + Output(lib, a);
    assert AttrName(lib, REL) == "rel";
    forall k | 0 <= k < |all| ensures all[k] == if k < n then f.kept[k] else if k == n then a else REL {
    }
  }

  lemma {:induction false} SiftKeeps(lib: Library, f: Filter, a: Attr)
    requires WfLibrary(lib) && WellKept(lib, f.kept) && NamesDistinct(lib, f.kept) && NamesSeen(lib, f)
    ensures var g := Sift(lib, f, a); WellKept(lib, g.kept) && NamesDistinct(lib, g.kept) && NamesSeen(lib, g)
  {
    hide IssueOf, WellKept, NamesDistinct, NamesSeen, Output;
    if Accepts(lib, f, a) {
      OutputWellKept(lib, f.kept, a);
      OutputDistinct(lib, f, a);
    } else {
      Rejected(lib, f, a);
    }
  }

  lemma {:induction false} Rejected(lib: Library, f: Filter, a: Attr)
    requires !Accepts(lib, f, a)
    ensures Sift(lib, f, a).kept == f.kept && Sift(lib, f, a).seen == f.seen
    ensures forall g: Filter :: NamesSeen(lib, f) && g.kept == f.kept && g.seen == f.seen ==> NamesSeen(lib, g)
  {
    hide IssueOf;
  }

  /** The output's names are distinct and among href, target, rel and title; every attribute passed
   *  its validator; `rel` stands directly behind an accepted blank target and nowhere else. */
  lemma {:induction false} KeptAttributes(lib: Library, attrs: seq<Attr>)
    requires WfLibrary(lib)
    ensures var f := Sifted(lib, attrs);
      WellKept(lib, f.kept) && NamesDistinct(lib, f.kept) && NamesSeen(lib, f)
  {
    hide Sift, WellKept, NamesDistinct, NamesSeen;
    if attrs == [] {
      NothingKept(lib);
    } else {
      KeptAttributes(lib, attrs[..|attrs| - 1]);
      SiftKeeps(lib, Sifted(lib, attrs[..|attrs| - 1]), attrs[|attrs| - 1]);
    }
  }

  lemma {:induction false} NothingKept(lib: Library)
    ensures WellKept(lib, EMPTY.kept) && NamesDistinct(lib, EMPTY.kept) && NamesSeen(lib, EMPTY)
  {
  }
}
