/** What a kept link attribute satisfies, which are kept, and what is said of the others: directly over
 *  the library's trimming, lower case and URL parsing. */
module LinkRules {
  import opened Basics
  import opened LinkFilter

  // ---- good attributes ----

  /** The name an attribute goes by: a flag's name is its payload. */
  function CalledName(lib: Library, a: Attr): string {
    if a.isFlag then lib.lower(a.payload) else lib.lower(a.name)
  }

  predicate GoesBy(lib: Library, a: Attr, name: string) {
    name == CalledName(lib, a)
  }

  /** A value that is not blank and has no control characters. */
  predicate HasValue(lib: Library, a: Attr) {
    !a.isFlag && lib.trim(a.payload) != "" && forall c :: c in lib.trim(a.payload) ==> c !in "\0\r\n\t"
  }

  /** An address that parses and goes to the web or a mailbox, or is relative to the site. */
  predicate GoodHref(lib: Library, a: Attr) {
    && HasValue(lib, a)
    && var address := lib.trim(a.payload);
       match lib.scheme(address)
       case None => false
       case Some(s) => lib.lower(s) in ["http", "https", "mailto"] || (lib.lower(s) == "" && !("//" <= address))
  }

  predicate GoodTarget(lib: Library, a: Attr) {
    HasValue(lib, a) && lib.trim(a.payload) in ["_blank", "_self"]
  }

  predicate GoodTitle(lib: Library, a: Attr) {
    HasValue(lib, a) && |lib.trim(a.payload)| <= 65
  }

  predicate Good(lib: Library, a: Attr) {
    || (GoesBy(lib, a, "href") && GoodHref(lib, a))
    || (GoesBy(lib, a, "target") && GoodTarget(lib, a))
    || (GoesBy(lib, a, "title") && GoodTitle(lib, a))
  }

  lemma {:induction false} ValueMeans(lib: Library, a: Attr, name: string)
    ensures BasicLinkCheck(lib, a, name).0 == None <==> HasValue(lib, a)
    ensures HasValue(lib, a) ==> BasicLinkCheck(lib, a, name).1 == lib.trim(a.payload)
  {
    var p := lib.trim(a.payload);
    assert forall c :: c in "\0\r\n\t" <==> c == '\0' || c == '\r' || c == '\n' || c == '\t';
    if '\0' in p { assert '\0' in "\0\r\n\t"; }
    if '\r' in p { assert '\r' in "\0\r\n\t"; }
    if '\n' in p { assert '\n' in "\0\r\n\t"; }
    if '\t' in p { assert '\t' in "\0\r\n\t"; }
  }

  /** Passing the validators means being good. */
  lemma {:induction false} PassesIff(lib: Library, a: Attr)
    ensures Passes(lib, a) <==> Good(lib, a)
  {
    hide HasValue, BasicLinkCheck;
    ValueMeans(lib, a, "href");
    ValueMeans(lib, a, "target");
    ValueMeans(lib, a, "title");
    var p := lib.trim(a.payload);
    assert "//" <= p <==> IsProtocolRelative(p);
  }

  // ---- what is kept ----

  /** Attribute j is the first good one of its name. */
  ghost predicate FirstGood(lib: Library, attrs: seq<Attr>, j: nat) {
    && j < |attrs| && Good(lib, attrs[j])
    && forall i, name :: 0 <= i < j && GoesBy(lib, attrs[i], name) && Good(lib, attrs[i]) ==> !GoesBy(lib, attrs[j], name)
  }

  lemma {:induction false} ChosenIff(lib: Library, attrs: seq<Attr>, j: nat)
    ensures Chosen(lib, attrs, j) <==> FirstGood(lib, attrs, j)
  {
    hide Passes, Good;
    forall i | 0 <= i < |attrs| ensures Passes(lib, attrs[i]) <==> Good(lib, attrs[i]) {
      PassesIff(lib, attrs[i]);
    }
    if FirstGood(lib, attrs, j) {
      forall i | 0 <= i < j ensures !(Passes(lib, attrs[i]) && AttrName(lib, attrs[i]) == AttrName(lib, attrs[j])) {
        var name := AttrName(lib, attrs[i]);
        assert GoesBy(lib, attrs[i], name) && (Good(lib, attrs[i]) ==> !GoesBy(lib, attrs[j], name));
      }
    }
  }

  /** The attributes kept, by position: the first good one of each name, a target for a blank window
   *  followed by its `rel`. */
  ghost function Wanted(lib: Library, attrs: seq<Attr>, n: nat): seq<Attr>
    requires n <= |attrs|
  {
    if n == 0 then []
    else
      var a := attrs[n - 1];
      Wanted(lib, attrs, n - 1)
      + (if !FirstGood(lib, attrs, n - 1) then []
         else if GoesBy(lib, a, "target") && lib.trim(a.payload) == "_blank" then [a, Attr("rel", "noopener noreferrer", false)]
         else [a])
  }

  lemma {:induction false} KeptIsWanted(lib: Library, attrs: seq<Attr>, n: nat)
    requires n <= |attrs|
    ensures Sifted(lib, attrs[..n]).kept == Wanted(lib, attrs, n)
  {
    SelectedIsWanted(lib, attrs, n);
    SiftedIsSelected(lib, attrs, n);
  }

  lemma {:induction false} SelectedIsWanted(lib: Library, attrs: seq<Attr>, n: nat)
    requires n <= |attrs|
    ensures Selected(lib, attrs, n) == Wanted(lib, attrs, n)
  {
    hide Chosen, FirstGood;
    if n > 0 {
      SelectedIsWanted(lib, attrs, n - 1);
      ChosenIff(lib, attrs, n - 1);
      if FirstGood(lib, attrs, n - 1) { OutputMeans(lib, attrs, n - 1); }
    }
  }

  lemma {:induction false} OutputMeans(lib: Library, attrs: seq<Attr>, j: nat)
    requires FirstGood(lib, attrs, j)
    ensures var a := attrs[j];
      Output(lib, a) == if GoesBy(lib, a, "target") && lib.trim(a.payload) == "_blank"
                        then [a, Attr("rel", "noopener noreferrer", false)] else [a]
  {
    assert !attrs[j].isFlag;
  }

  /** What may be among the kept: a good attribute, or the `rel` of a blank target directly before it. */
  ghost predicate MayStand(lib: Library, kept: seq<Attr>, k: nat)
    requires k < |kept|
  {
    Good(lib, kept[k]) || (k > 0 && kept[k] == Attr("rel", "noopener noreferrer", false) && IsBlankTarget(lib, kept[k - 1]))
  }

  ghost predicate AllMayStand(lib: Library, kept: seq<Attr>) {
    forall k :: 0 <= k < |kept| ==> MayStand(lib, kept, k)
  }

  ghost predicate IsBlankTarget(lib: Library, a: Attr) {
    !a.isFlag && GoesBy(lib, a, "target") && lib.trim(a.payload) == "_blank"
  }

  /** Every kept attribute is good, or the `rel` of the blank target before it. */
  lemma {:induction false} KeptAreGood(lib: Library, attrs: seq<Attr>, n: nat)
    requires n <= |attrs|
    ensures AllMayStand(lib, Wanted(lib, attrs, n))
    ensures forall j :: 0 <= j < n && FirstGood(lib, attrs, j) ==> attrs[j] in Wanted(lib, attrs, n)
  {
    hide Good, GoesBy;
    if n > 0 {
      KeptAreGood(lib, attrs, n - 1);
      var front, kept := Wanted(lib, attrs, n - 1), Wanted(lib, attrs, n);
      assert front == kept[..|front|];
      forall k | 0 <= k < |kept| ensures MayStand(lib, kept, k) {
        if k < |front| {
          assert MayStand(lib, front, k) by { assert AllMayStand(lib, front); }
          assert kept[k] == kept[..|front|][k] == front[k];
          if k > 0 { assert kept[k - 1] == kept[..|front|][k - 1] == front[k - 1]; }
        } else {
          GoodHasValue(lib, attrs[n - 1]);
        }
      }
    }
  }

  lemma {:induction false} GoodHasValue(lib: Library, a: Attr)
    ensures Good(lib, a) ==> !a.isFlag
  {
  }

  // ---- what is said of the others ----

  /** Attribute j goes by an allowed name of which no good attribute was met before, and is not good. */
  ghost predicate Refused(lib: Library, attrs: seq<Attr>, j: nat)
    requires j < |attrs|
  {
    var name := CalledName(lib, attrs[j]);
    && name in ["href", "target", "title"] && !Good(lib, attrs[j])
    && forall i :: 0 <= i < j ==> !(GoesBy(lib, attrs[i], name) && Good(lib, attrs[i]))
  }

  /** The issue says what is wrong with a bad attribute of this name. */
  ghost predicate Fits(lib: Library, a: Attr, name: string, issue: LinkIssue) {
    var value := lib.trim(a.payload);
    if a.isFlag then issue == NeedsValue(name)
    else if value == "" then issue == IsEmpty(name)
    else if !HasValue(lib, a) then issue == HasControls(name)
    else if name == "target" then issue == TargetUnknown
    else if name == "title" then issue == TitleTooLong
    else
      match lib.scheme(value)
      case None => issue == HrefInvalid
      case Some(s) => issue == if lib.lower(s) == "" then HrefProtocolRelative else HrefScheme(s)
  }

  /** The issues are those of the refused attributes among the first n, in their order. */
  ghost predicate IssuesFit(lib: Library, attrs: seq<Attr>, n: nat, issues: seq<LinkIssue>)
    requires n <= |attrs|
  {
    if n == 0 then issues == []
    else if Refused(lib, attrs, n - 1) then
      && issues != [] && IssuesFit(lib, attrs, n - 1, issues[..|issues| - 1])
      && Fits(lib, attrs[n - 1], CalledName(lib, attrs[n - 1]), issues[|issues| - 1])
    else IssuesFit(lib, attrs, n - 1, issues)
  }

  lemma {:induction false} IssueFits(lib: Library, a: Attr, name: string)
    requires name in ["href", "target", "title"] && GoesBy(lib, a, name)
    ensures IsAllowedName(AttrName(lib, a)) && (IssueOf(lib, a) == None <==> Good(lib, a))
    ensures !Good(lib, a) ==> Fits(lib, a, name, IssueOf(lib, a).value)
  {
    hide HasValue;
    PassesIff(lib, a);
    ValueMeans(lib, a, name);
    assert "//" <= lib.trim(a.payload) <==> IsProtocolRelative(lib.trim(a.payload));
  }

  lemma {:induction false} SiftedIssuesFit(lib: Library, attrs: seq<Attr>, n: nat)
    requires n <= |attrs|
    ensures IssuesFit(lib, attrs, n, Sifted(lib, attrs[..n]).issues)
  {
    hide Good, Fits, IssueOf, Output;
    if n > 0 {
      var a, f := attrs[n - 1], Sifted(lib, attrs[..n - 1]);
      var g := Sifted(lib, attrs[..n]);
      SiftedIssuesFit(lib, attrs, n - 1);
      assert attrs[..n][..n - 1] == attrs[..n - 1];
      SiftedIsSelected(lib, attrs, n - 1);
      SeenMeans(lib, attrs, n - 1, AttrName(lib, a));
      PassesIff(lib, a);
      if IsAllowedName(AttrName(lib, a)) { IssueFits(lib, a, AttrName(lib, a)); }
      if Refused(lib, attrs, n - 1) {
        assert g.issues == f.issues + [IssueOf(lib, a).value];
      } else {
        assert g.issues == f.issues;
      }
    }
  }

  lemma {:induction false} SeenMeans(lib: Library, attrs: seq<Attr>, n: nat, name: string)
    requires n <= |attrs| && SeenIs(lib, attrs, n, Sifted(lib, attrs[..n]).seen)
    ensures name in Sifted(lib, attrs[..n]).seen <==> exists i :: 0 <= i < n && GoesBy(lib, attrs[i], name) && Good(lib, attrs[i])
  {
    hide Good, Passes, Sifted;
    forall i | 0 <= i < n ensures Passes(lib, attrs[i]) <==> Good(lib, attrs[i]) {
      PassesIff(lib, attrs[i]);
    }
    if i :| 0 <= i < n && GoesBy(lib, attrs[i], name) && Good(lib, attrs[i]) {
      assert Passes(lib, attrs[i]) && AttrName(lib, attrs[i]) == name;
    }
  }
}
