/** The component of a resumed activity: which field it is read from, and how it comes out of an
    Intent dump, a row of words or quotes. */
module ComponentLaws {
  import opened Prelude
  import opened Text
  import opened Engine
  import opened Parser
  import opened FieldLaws

  // A component names a package, and behind a slash a class.
  predicate ComponentText(pkg: string, component: string) {
    && NameText(pkg) && |component| >= |pkg| && component[..|pkg|] == pkg
    && (|component| > |pkg| ==> component[|pkg|] == '/')
    && forall c | c in component :: Letter(c) || '0' <= c <= '9' || c in "._:/$"
  }

  // How a component stands in its field: within quotes or bare, inside an Intent dump, or as
  // one of several words.
  datatype Wrap =
    | Quoted(left: string, right: string)
    | Dump(pre: string, post: string)
    | Spaced(pre: string, left: string, right: string, post: string)

  predicate Quotes(q: string) { forall c | c in q :: c == '"' || c == '\'' }

  function Wrapped(component: string, w: Wrap): string {
    match w
    case Quoted(left, right) => left + (component + right)
    case Dump(pre, post) => ['{'] + ((pre + ("cmp=" + (component + post))) + ['}'])
    case Spaced(pre, left, right, post) => ['{'] + ((pre + ((left + (component + right)) + post)) + ['}'])
  }

  predicate CmpAt(s: string, i: nat)
    requires i + 4 <= |s|
  {
    s[i..i + 4] == "cmp="
  }

  predicate NoCmp(s: string) { forall i | 0 <= i && i + 4 <= |s| :: !CmpAt(s, i) }

  predicate NoBraceEnds(s: string) { Bare(s, (c: char) => c == '{' || c == '}') }

  // In a dump the first "cmp=" is the component's and white space ends it; of several words it
  // is the first with a slash.
  predicate WrapText(component: string, w: Wrap) {
    match w
    case Quoted(left, right) => Quotes(left) && Quotes(right)
    case Dump(pre, post) =>
      var dump := pre + ("cmp=" + (component + post));
      && (forall i | 0 <= i < |pre| :: !CmpAt(pre + "cmp=", i))
      && (post == "" || IsSpace(post[0])) && Bare(dump, IsSpace) && NoBraceEnds(dump)
    case Spaced(pre, left, right, post) =>
      var dump := pre + ((left + (component + right)) + post);
      && Quotes(left) && Quotes(right) && '/' in component && '/' !in pre && ' ' in pre + post && NoCmp(dump)
      && (pre == "" || IsSpace(pre[|pre| - 1])) && (post == "" || IsSpace(post[0]))
      && Bare(dump, IsSpace) && NoBraceEnds(dump)
  }

  lemma {:induction false} FoundFirst(pre: string, rest: string)
    requires forall i | 0 <= i < |pre| :: !CmpAt(pre + "cmp=", i)
    ensures Find(pre + ("cmp=" + rest), "cmp=") == Some(|pre|)
  {
    var s := pre + ("cmp=" + rest);
    if pre == "" {
      assert s[..4] == "cmp=";
    } else {
      assert !CmpAt(pre + "cmp=", 0) && s[..4] == (pre + "cmp=")[0..4];
      assert s[1..] == pre[1..] + ("cmp=" + rest);
      forall i | 0 <= i < |pre| - 1 ensures !CmpAt(pre[1..] + "cmp=", i) {
        assert !CmpAt(pre + "cmp=", i + 1);
        assert (pre + "cmp=")[i + 1..i + 5] == (pre[1..] + "cmp=")[i..i + 4];
      }
      FoundFirst(pre[1..], rest);
    }
  }

  predicate EndsDump(c: char) { IsSpace(c) || c == '}' || c == ']' }

  lemma {:induction false} UntilGap(w: string, rest: string)
    requires (forall c | c in w :: !EndsDump(c)) && (rest == "" || EndsDump(rest[0]))
    ensures UntilEnd(w + rest) == w
  {
    if w == "" {
      assert w + rest == rest;
    } else {
      assert w[0] in w && forall c | c in w[1..] :: c in w;
      UntilGap(w[1..], rest);
      assert (w + rest)[1..] == w[1..] + rest;
    }
  }

  // What a component's characters are not.
  lemma ComponentIsInk(pkg: string, component: string)
    requires ComponentText(pkg, component)
    ensures component != "" && forall c | c in component ::
              !IsSpace(c) && !EndsDump(c) && !IsWrap(c) && !IsBrace(c) && c != ' ' && c != '='
  {
    assert component[0] == pkg[0];
  }

  lemma PackagePart(pkg: string, component: string)
    requires ComponentText(pkg, component)
    ensures Before(component, '/') == pkg && NameText(pkg)
  {
    assert '/' !in pkg;
    if |component| > |pkg| {
      assert component == pkg + ['/'] + component[|pkg| + 1..];
      FirstAt(pkg, '/', component[|pkg| + 1..]);
    } else {
      assert component == pkg;
    }
  }

  lemma QuotedEnds(left: string, component: string, right: string)
    requires Quotes(left) && Quotes(right) && component != ""
    requires forall c | c in component :: !IsSpace(c) && !IsBrace(c) && c != ' ' && c != '='
    ensures var w := left + (component + right);
      IsWord(w) && Bare(w, IsSpace) && Bare(w, IsBrace) && ' ' !in w && '=' !in w
  {
    var w := left + (component + right);
    assert forall c | c in w :: c in left || c in component || c in right;
    assert w != "" && w[0] in w && w[|w| - 1] in w;
  }

  // The last strip of Unwrap.
  function Unquoted(s: string): string { Strip(s, (d: char) => IsWrap(d) || d == ' ') }

  lemma UnquotedIs(left: string, component: string, right: string)
    requires Quotes(left) && Quotes(right) && component != ""
    requires forall c | c in component :: !IsWrap(c) && c != ' '
    ensures Strip(left + (component + right), IsWrap) == component
    ensures Unquoted(left + (component + right)) == component && Unquoted(component) == component
  {
    assert component[0] in component && component[|component| - 1] in component;
    PadsStrip(left, component, right, IsWrap);
    PadsStrip(left, component, right, (d: char) => IsWrap(d) || d == ' ');
    BareStays(component, (d: char) => IsWrap(d) || d == ' ');
  }

  lemma NoFind(s: string)
    requires NoCmp(s)
    ensures Find(s, "cmp=") == None
  {
    var at := Find(s, "cmp=");
    assert at.Some? ==> CmpAt(s, at.value);
  }

  lemma NoSign(s: string)
    requires '=' !in s
    ensures NoCmp(s)
  {
    forall i | 0 <= i && i + 4 <= |s| ensures !CmpAt(s, i) { assert s[i..i + 4][3] == s[i + 3]; }
  }

  // The three ways Unwrap takes a field apart, its braces gone.
  lemma UnwrapIs(raw: string)
    ensures var c := Trim(Strip(Trim(raw), IsBrace)); var at := Find(c, "cmp=");
      Unwrap(raw) == Unquoted(
        if at.Some? then UntilEnd(Trim(c[at.value + 4..]))
        else if ' ' in c && SlashedWord(Words(c)).Some? then Strip(SlashedWord(Words(c)).value, IsWrap)
        else c)
  {
  }

  lemma BracesGo(dump: string)
    requires Bare(dump, IsSpace) && NoBraceEnds(dump)
    ensures Trim(Strip(Trim(['{'] + (dump + ['}'])), IsBrace)) == dump
  {
    hide StripLeft, StripRight;
    var raw := ['{'] + (dump + ['}']);
    assert raw[0] == '{' && raw[|raw| - 1] == '}';
    BareStays(raw, IsSpace);
    PadsStrip(['{'], dump, ['}'], IsBrace);
    BareStays(dump, IsSpace);
  }

  lemma TailIsBare(pre: string, mid: string, post: string)
    requires mid != "" && !IsSpace(mid[0]) && Bare(pre + (mid + post), IsSpace)
    ensures Bare(mid + post, IsSpace)
  {
    var s, t := pre + (mid + post), mid + post;
    assert s[|s| - 1] == t[|t| - 1] && t[0] == mid[0];
  }

  lemma DumpUnwraps(pkg: string, component: string, pre: string, post: string)
    requires ComponentText(pkg, component) && WrapText(component, Dump(pre, post))
    ensures Unwrap(Wrapped(component, Dump(pre, post))) == component
  {
    hide StripLeft, StripRight, Bare, UntilEnd, SlashedWord, Words, Find, ComponentText, NoBraceEnds, Unwrap;
    var dump := pre + ("cmp=" + (component + post));
    UnwrapIs(Wrapped(component, Dump(pre, post)));
    BracesGo(dump);
    FoundFirst(pre, component + post);
    assert dump[|pre| + 4..] == component + post;
    ComponentIsInk(pkg, component);
    assert component[0] in component;
    assert dump == (pre + "cmp=") + (component + post);
    TailIsBare(pre + "cmp=", component, post);
    BareStays(component + post, IsSpace);
    UntilGap(component, post);
    UnquotedIs("", component, "");
  }

  lemma {:induction false} SlashedWordAt(pre: string, w: string, post: string)
    requires '/' !in pre && (pre == "" || IsSpace(pre[|pre| - 1])) && (post == "" || IsSpace(post[0]))
    requires IsWord(w) && '/' in w
    ensures SlashedWord(Words(pre + (w + post))) == Some(w)
  {
    hide Words, IsSpace;
    var s := w + post;
    if pre == "" {
      assert pre + s == s;
      WordThenSpace(w, post);
    } else if IsSpace(pre[0]) {
      assert pre + s == [pre[0]] + (pre[1..] + s);
      SpaceThen(pre[0], pre[1..] + s);
      SlashedWordAt(pre[1..], w, post);
    } else {
      var n := WordLength(pre);
      var front, back := pre[..n], pre[n..];
      assert pre + s == front + (back + s) && back[|back| - 1] == pre[|pre| - 1];
      assert '/' !in front && '/' !in back && (back + s)[0] == back[0];
      WordThenSpace(front, back + s);
      SlashedWordAt(back, w, post);
    }
  }

  lemma SpacedUnwraps(pkg: string, component: string, pre: string, left: string, right: string, post: string)
    requires ComponentText(pkg, component) && WrapText(component, Spaced(pre, left, right, post))
    ensures Unwrap(Wrapped(component, Spaced(pre, left, right, post))) == component
  {
    hide StripLeft, StripRight, Bare, UntilEnd, SlashedWord, Words, Find, ComponentText, NoBraceEnds, Unwrap, Quotes;
    var word := left + (component + right);
    var dump := pre + (word + post);
    UnwrapIs(Wrapped(component, Spaced(pre, left, right, post)));
    BracesGo(dump);
    NoFind(dump);
    ComponentIsInk(pkg, component);
    QuotedEnds(left, component, right);
    SlashStays(left, component, right);
    SlashedWordAt(pre, word, post);
    BlankStays(pre, word, post);
    UnquotedIs(left, component, right);
  }

  lemma SlashStays(left: string, component: string, right: string)
    ensures '/' in component ==> '/' in left + (component + right)
  {
  }

  lemma BlankStays(pre: string, w: string, post: string)
    ensures ' ' in pre + post ==> ' ' in pre + (w + post)
  {
  }

  lemma QuotedUnwraps(pkg: string, component: string, left: string, right: string)
    requires ComponentText(pkg, component) && WrapText(component, Quoted(left, right))
    ensures Unwrap(Wrapped(component, Quoted(left, right))) == component
  {
    hide StripLeft, StripRight, Bare, UntilEnd, SlashedWord, Words, Find, ComponentText, Unwrap, Quotes;
    var word := left + (component + right);
    UnwrapIs(word);
    ComponentIsInk(pkg, component);
    QuotedEnds(left, component, right);
    BareStays(word, IsSpace);
    BareStays(word, IsBrace);
    NoSign(word);
    NoFind(word);
    UnquotedIs(left, component, right);
  }

  // However it stands, the component comes out, and from it the package.
  lemma WrappedUnwraps(pkg: Pkg, component: string, w: Wrap)
    requires ComponentText(pkg, component) && WrapText(component, w)
    ensures var raw := Wrapped(component, w);
      raw != "" && Unwrap(raw) == component && component != "" && Before(component, '/') == pkg && NameText(pkg)
  {
    hide Unwrap, WrapText, ComponentText;
    ComponentIsInk(pkg, component);
    PackagePart(pkg, component);
    match w
    case Quoted(left, right) => QuotedUnwraps(pkg, component, left, right);
    case Dump(pre, post) => DumpUnwraps(pkg, component, pre, post);
    case Spaced(pre, left, right, post) => SpacedUnwraps(pkg, component, pre, left, right, post);
  }

  // --- the field it stands in ----------------------------------------------------------------------

  lemma {:induction false} FirstSlashAt(toks: seq<string>, k: nat)
    requires k < |toks| && '/' in toks[k] && forall n | 0 <= n < k :: '/' !in toks[n]
    ensures FirstSlashed(toks) == toks[k]
  {
    if k > 0 { FirstSlashAt(toks[1..], k - 1); }
  }

  lemma {:induction false} NoSlash(toks: seq<string>)
    requires forall f | f in toks :: '/' !in f
    ensures FirstSlashed(toks) == ""
  {
    if toks != [] {
      assert toks[0] in toks;
      NoSlash(toks[1..]);
    }
  }

  // The first field with a slash is taken, or the fourth when there is none.
  lemma ComponentFieldIs(fs: seq<string>, k: nat)
    requires k < |fs| && k < 8 && forall n | 0 <= n < k :: '/' !in fs[n]
    requires '/' in fs[k] || (k == 3 && forall n | 3 < n < |fs| :: '/' !in fs[n])
    ensures ComponentField(FirstEight(fs)) == fs[k]
  {
    hide FirstSlashed;
    var toks := FirstEight(fs);
    assert toks[k] == fs[k];
    if '/' in fs[k] {
      FirstSlashAt(toks, k);
    } else {
      forall f | f in toks ensures '/' !in f {
        var n :| 0 <= n < |toks| && toks[n] == f;
        assert toks[n] == fs[n];
      }
      NoSlash(toks);
    }
  }
}
