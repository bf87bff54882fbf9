// Lexical normalisation of a POSIX path, as std::filesystem::path::lexically_normal defines it;
// file_uri_from_path prints every path in this form (src/uri.cpp).
module LexicalPath {

  // ---- Components ----

  /** The text between the slashes, empty text included. */
  function Split(s: string): (r: seq<string>)
    ensures r != []
  {
    if s == "" then [""]
    else
      var n := |s| - 1;
      Grown(Split(s[..n]), s[n])
  }

  /** One more character: it starts a component, or belongs to the last one. */
  function Grown(front: seq<string>, c: char): (r: seq<string>)
    requires front != []
    ensures r != []
  {
    if c == '/' then front + [""] else front[..|front| - 1] + [front[|front| - 1] + [c]]
  }

  function Join(names: seq<string>): string {
    if names == [] then ""
    else if |names| == 1 then names[0]
    else Join(names[..|names| - 1]) + "/" + names[|names| - 1]
  }

  /** What is left of a path: its names, and whether a slash would follow them. */
  datatype Trail = Trail(names: seq<string>, slash: bool)

  predicate EndsInDots(names: seq<string>) { names != [] && names[|names| - 1] == ".." }

  /** One more component: dots vanish, a name and the ".." behind it cancel, and nothing is
      above the root. */
  function Walk(root: bool, t: Trail, c: string): Trail {
    if c == "" || c == "." then t.(slash := true)
    else if c != ".." then Trail(t.names + [c], false)
    else if t.names != [] && !EndsInDots(t.names) then Trail(t.names[..|t.names| - 1], true)
    else if root then t.(slash := true)
    else Trail(t.names + [c], false)
  }

  function WalkAll(root: bool, cs: seq<string>): Trail {
    if cs == [] then Trail([], false) else Walk(root, WalkAll(root, cs[..|cs| - 1]), cs[|cs| - 1])
  }

  predicate Rooted(path: string) { path != "" && path[0] == '/' }

  /** A slash is never kept behind "..", and nothing at all becomes ".". */
  function Render(root: bool, t: Trail): string {
    var tail := if t.slash && t.names != [] && !EndsInDots(t.names) then "/" else "";
    if !root && t.names == [] then "." else (if root then "/" else "") + Join(t.names) + tail
  }

  /** lexically_normal().generic_string(). */
  function Normalise(path: string): string {
    if path == "" then "" else Render(Rooted(path), WalkAll(Rooted(path), Split(path)))
  }

  // ---- What names can be left ----

  predicate IsName(c: string) { c != "" && c != "." && '/' !in c }

  /** Names are real names; ".." only comes first, and only in a relative path. */
  ghost predicate Clean(root: bool, names: seq<string>) {
    && (forall i :: 0 <= i < |names| ==> IsName(names[i]))
    && (forall i :: 0 <= i < |names| && names[i] == ".." ==> !root && forall k :: 0 <= k < i ==> names[k] == "..")
  }

  lemma CleanFront(root: bool, names: seq<string>)
    requires Clean(root, names) && names != []
    ensures Clean(root, names[..|names| - 1])
  {
    var front := names[..|names| - 1];
    forall i | 0 <= i < |front| ensures front[i] == names[i] {}
  }

  lemma WalkIsClean(root: bool, t: Trail, c: string)
    requires Clean(root, t.names) && '/' !in c
    ensures Clean(root, Walk(root, t, c).names)
  {
    if c == ".." && t.names != [] && !EndsInDots(t.names) {
      CleanFront(root, t.names);
    } else if c == ".." && !root {
      var n := |t.names|;
      forall k | 0 <= k < n ensures t.names[k] == ".." {
        assert t.names[n - 1] == "..";
      }
    }
  }

  lemma {:induction false} SplitHasNoSlash(s: string, i: nat)
    requires i < |Split(s)|
    ensures '/' !in Split(s)[i]
  {
    if s != "" {
      var n := |s| - 1;
      var front := Split(s[..n]);
      if i < |front| {
        SplitHasNoSlash(s[..n], i);
      }
    }
  }

  lemma {:induction false} WalkAllIsClean(root: bool, cs: seq<string>)
    requires forall i :: 0 <= i < |cs| ==> '/' !in cs[i]
    ensures Clean(root, WalkAll(root, cs).names)
  {
    if cs != [] {
      WalkAllIsClean(root, cs[..|cs| - 1]);
      WalkIsClean(root, WalkAll(root, cs[..|cs| - 1]), cs[|cs| - 1]);
    }
  }

  // ---- Printed paths are split and walked to what they were ----

  lemma SplitPush(s: string, c: char)
    ensures Split(s + [c]) == Grown(Split(s), c)
  {
    assert (s + [c])[..|s|] == s;
  }

  lemma GrownBehind(a: seq<string>, b: seq<string>, c: char)
    requires b != []
    ensures Grown(a + b, c) == a + Grown(b, c)
  {
    assert (a + b)[..|a + b| - 1] == a + b[..|b| - 1];
  }

  lemma {:induction false} SplitName(a: string, name: string)
    requires '/' !in name
    ensures Split(a + "/" + name) == Split(a) + [name]
  {
    if name == "" {
      assert a + "/" + name == a + ['/'];
      SplitPush(a, '/');
    } else {
      var m := |name| - 1;
      SplitName(a, name[..m]);
      assert a + "/" + name == a + "/" + name[..m] + [name[m]];
      SplitPush(a + "/" + name[..m], name[m]);
      GrownBehind(Split(a), [name[..m]], name[m]);
      assert [name[..m]][..0] == [] && name[..m] + [name[m]] == name;
    }
  }

  lemma {:induction false} SplitOne(name: string)
    requires '/' !in name
    ensures Split(name) == [name]
  {
    if name != "" {
      var m := |name| - 1;
      SplitOne(name[..m]);
      assert name == name[..m] + [name[m]];
      assert [name[..m]][..0] == [];
    }
  }

  ghost predicate Slashless(names: seq<string>) { forall i :: 0 <= i < |names| ==> '/' !in names[i] }

  lemma {:induction false} SplitJoin(names: seq<string>)
    requires names != [] && Slashless(names)
    ensures Split(Join(names)) == names
  {
    var front, last := names[..|names| - 1], names[|names| - 1];
    assert names == front + [last];
    if |names| == 1 {
      SplitOne(last);
    } else {
      SplitJoin(front);
      SplitName(Join(front), last);
    }
  }

  lemma {:induction false} SplitRoot(s: string)
    ensures Split("/" + s) == [""] + Split(s)
  {
    if s == "" {
      SplitPush("", '/');
      assert "/" + s == "" + ['/'];
    } else {
      var front, c := s[..|s| - 1], s[|s| - 1];
      SplitRoot(front);
      assert s == front + [c] && "/" + s == "/" + front + [c];
      SplitPush("/" + front, c);
      SplitPush(front, c);
      GrownBehind([""], Split(front), c);
    }
  }

  lemma SplitSlash(s: string)
    ensures Split(s + "/") == Split(s) + [""]
  {
    assert s + "/" + "" == s + "/";
    SplitName(s, "");
  }

  lemma {:induction false} WalkNames(root: bool, names: seq<string>)
    requires Clean(root, names)
    ensures WalkAll(root, names) == Trail(names, false)
  {
    if names != [] {
      var n := |names| - 1;
      CleanFront(root, names);
      WalkNames(root, names[..n]);
      assert names == names[..n] + [names[n]];
      if names[n] == ".." && n > 0 {
        assert names[..n][n - 1] == names[n - 1];
      }
    }
  }

  lemma {:induction false} WalkRoot(root: bool, cs: seq<string>)
    requires root && cs != []
    ensures WalkAll(root, [""] + cs).names == WalkAll(root, cs).names
    ensures WalkAll(root, [""] + cs).slash == WalkAll(root, cs).slash
  {
    var n := |cs| - 1;
    var t := [""] + cs;
    assert t[..|t| - 1] == [""] + cs[..n] && t[|t| - 1] == cs[n];
    if n == 0 {
      assert cs[..n] == [] && [""] + cs[..n] == [""];
      assert WalkAll(root, [""]) == Trail([], true) by { assert [""][..0] == []; }
    } else {
      WalkRoot(root, cs[..n]);
    }
  }

  lemma WalkOneMore(root: bool, cs: seq<string>, c: string)
    ensures WalkAll(root, cs + [c]) == Walk(root, WalkAll(root, cs), c)
  {
    assert (cs + [c])[..|cs|] == cs;
  }

  /** The components of a printed path lead to the same names, and to a slash if one is printed. */
  lemma RenderWalks(root: bool, t: Trail)
    requires Clean(root, t.names)
    ensures Rooted(Render(root, t)) == root && Render(root, t) != ""
    ensures Render(root, WalkAll(root, Split(Render(root, t)))) == Render(root, t)
  {
    if t.names == [] {
      NothingWalks(root, t);
    } else {
      NamesWalk(root, t);
    }
  }

  lemma NothingWalks(root: bool, t: Trail)
    requires t.names == []
    ensures Rooted(Render(root, t)) == root && Render(root, t) != ""
    ensures WalkAll(root, Split(Render(root, t))).names == []
  {
    if root {
      assert Render(root, t) == "/";
      assert "/" + "" == "/";
      SplitRoot("");
      WalkRoot(root, [""]);
      WalkOneMore(root, [], "");
      assert [] + [""] == [""];
    } else {
      SplitOne(".");
      WalkOneMore(root, [], ".");
      assert [] + ["."] == ["."];
    }
  }

  lemma {:induction false} JoinStarts(names: seq<string>)
    requires names != [] && forall i :: 0 <= i < |names| ==> IsName(names[i])
    ensures Join(names) != "" && Join(names)[0] != '/'
  {
    if |names| > 1 {
      JoinStarts(names[..|names| - 1]);
    } else {
      assert names[0][0] in names[0];
    }
  }

  lemma NamesWalk(root: bool, t: Trail)
    requires Clean(root, t.names) && t.names != []
    ensures Rooted(Render(root, t)) == root && Render(root, t) != ""
    ensures var w := WalkAll(root, Split(Render(root, t)));
      w.names == t.names && w.slash == (t.slash && !EndsInDots(t.names))
  {
    var kept := t.slash && !EndsInDots(t.names);
    var body := Join(t.names) + if kept then "/" else "";
    JoinStarts(t.names);
    BodyWalks(root, t.names, kept);
    RootWalks(root, body, Trail(t.names, kept));
    RenderNames(root, t, body);
  }

  lemma RenderNames(root: bool, t: Trail, body: string)
    requires t.names != [] && body == Join(t.names) + if t.slash && !EndsInDots(t.names) then "/" else ""
    ensures Render(root, t) == (if root then "/" else "") + body
  {
  }

  lemma RootWalks(root: bool, body: string, t: Trail)
    requires body != "" && body[0] != '/' && WalkAll(root, Split(body)) == t
    ensures var s := (if root then "/" else "") + body;
      Rooted(s) == root && s != "" && WalkAll(root, Split(s)) == t
  {
    if root {
      SplitRoot(body);
      WalkRoot(root, Split(body));
    } else {
      assert "" + body == body;
    }
  }

  lemma BodyWalks(root: bool, names: seq<string>, slash: bool)
    requires Clean(root, names) && names != []
    ensures WalkAll(root, Split(Join(names) + if slash then "/" else "")) == Trail(names, slash)
  {
    JoinWalks(root, names);
    if slash {
      SplitSlash(Join(names));
      WalkOneMore(root, Split(Join(names)), "");
    } else {
      assert Join(names) + "" == Join(names);
    }
  }

  lemma JoinWalks(root: bool, names: seq<string>)
    requires Clean(root, names) && names != []
    ensures Split(Join(names)) == names && WalkAll(root, names) == Trail(names, false)
  {
    SplitJoin(names);
    WalkNames(root, names);
  }

  /** Normalising twice is normalising once. */
  lemma NormaliseTwice(path: string)
    ensures Normalise(Normalise(path)) == Normalise(path)
  {
    if path != "" {
      var root, cs := Rooted(path), Split(path);
      forall i | 0 <= i < |cs| ensures '/' !in cs[i] { SplitHasNoSlash(path, i); }
      WalkAllIsClean(root, cs);
      RenderWalks(root, WalkAll(root, cs));
    }
  }

  // ---- Shape and length ----

  /** Slashes stand apart. */
  ghost predicate Apart(path: string) {
    forall i {:trigger path[i]} :: 0 <= i < |path| - 1 && path[i] == '/' ==> path[i + 1] != '/'
  }

  lemma {:induction false} JoinIsApart(names: seq<string>)
    requires forall i :: 0 <= i < |names| ==> IsName(names[i])
    ensures Apart(Join(names))
    ensures names != [] ==> Join(names) != "" && Join(names)[|Join(names)| - 1] != '/'
  {
    if names != [] {
      var n := |names| - 1;
      var last := names[n];
      assert forall i :: 0 <= i < |last| ==> last[i] in last;
      if n > 0 {
        JoinIsApart(names[..n]);
        ApartJoin(Join(names[..n]), last);
      }
    }
  }

  lemma ApartJoin(a: string, name: string)
    requires Apart(a) && a != "" && a[|a| - 1] != '/' && IsName(name)
    ensures Apart(a + "/" + name)
  {
    var s := a + "/" + name;
    assert forall k :: 0 <= k < |name| ==> name[k] in name;
    forall i | 0 <= i < |s| - 1 && s[i] == '/' ensures s[i + 1] != '/' {
      if i < |a| {
        assert a[i] == '/';
      } else {
        assert s[i + 1] == name[i - |a|];
      }
    }
  }

  /** A normalised path has no empty component. */
  lemma NormalisedIsApart(path: string)
    ensures Apart(Normalise(path))
  {
    if path != "" {
      var root, cs := Rooted(path), Split(path);
      forall i | 0 <= i < |cs| ensures '/' !in cs[i] { SplitHasNoSlash(path, i); }
      WalkAllIsClean(root, cs);
      RenderIsApart(root, WalkAll(root, cs));
    }
  }

  lemma RenderIsApart(root: bool, t: Trail)
    requires Clean(root, t.names)
    ensures Apart(Render(root, t))
  {
    JoinIsApart(t.names);
    if t.names != [] {
      JoinStarts(t.names);
      var kept := t.slash && !EndsInDots(t.names);
      assert Render(root, t) == (if root then "/" else "") + Join(t.names) + if kept then "/" else "";
      SlashesAround(Join(t.names), root, kept);
    }
  }

  lemma SlashesAround(body: string, before: bool, after: bool)
    requires Apart(body) && body != "" && body[0] != '/' && body[|body| - 1] != '/'
    ensures Apart((if before then "/" else "") + body + if after then "/" else "")
  {
    var s := (if before then "/" else "") + body + if after then "/" else "";
    var n := if before then 1 else 0;
    forall i | 0 <= i < |s| - 1 && s[i] == '/' ensures s[i + 1] != '/' {
      if n <= i {
        assert body[i - n] == '/';
        assert i - n + 1 < |body|;
      }
    }
  }

  function Sizes(names: seq<string>): nat {
    if names == [] then 0 else Sizes(names[..|names| - 1]) + |names[|names| - 1]| + 1
  }

  lemma {:induction false} JoinSize(names: seq<string>)
    requires names != []
    ensures |Join(names)| == Sizes(names) - 1
  {
    if |names| > 1 {
      JoinSize(names[..|names| - 1]);
    } else {
      assert names[..0] == [];
    }
  }

  lemma {:induction false} SplitSize(s: string)
    ensures Sizes(Split(s)) == |s| + 1
  {
    if s == "" {
      assert [""][..0] == [];
    } else {
      var n := |s| - 1;
      SplitSize(s[..n]);
      var front, r := Split(s[..n]), Split(s);
      if s[n] == '/' {
        assert r[..|r| - 1] == front;
      } else {
        assert r[..|r| - 1] == front[..|front| - 1];
      }
    }
  }

  /** What a walk keeps fits into what it walked over; the root needs one more place. */
  lemma {:induction false} WalkSize(root: bool, cs: seq<string>)
    requires cs != [] && (root ==> cs[0] == "")
    ensures var t := WalkAll(root, cs);
      Sizes(t.names) + (if t.slash && t.names != [] then 1 else 0) + (if root then 1 else 0) <= Sizes(cs)
  {
    var n := |cs| - 1;
    WalkOneMore(root, cs[..n], cs[n]);
    assert cs == cs[..n] + [cs[n]];
    if n == 0 {
      assert cs[..n] == [];
      assert [cs[0]][..0] == [];
    } else {
      WalkSize(root, cs[..n]);
      StepSize(root, WalkAll(root, cs[..n]), cs[n]);
    }
  }

  lemma StepSize(root: bool, t: Trail, c: string)
    ensures var u := Walk(root, t, c);
      Sizes(u.names) + (if u.slash && u.names != [] then 1 else 0)
        <= Sizes(t.names) + (if t.slash && t.names != [] then 1 else 0) + |c| + 1
  {
    if t.names != [] {
      assert Sizes(t.names) > Sizes(t.names[..|t.names| - 1]);
    }
    assert (t.names + [c])[..|t.names|] == t.names;
  }

  lemma SplitStarts(s: string)
    requires Rooted(s)
    ensures Split(s)[0] == ""
  {
    assert s == "/" + s[1..];
    SplitRoot(s[1..]);
  }

  /** Normalising never makes a path longer. */
  lemma NormaliseShrinks(path: string)
    ensures |Normalise(path)| <= |path|
  {
    if path != "" {
      var root, cs := Rooted(path), Split(path);
      if root { SplitStarts(path); }
      SplitSize(path);
      WalkSize(root, cs);
      var t := WalkAll(root, cs);
      if t.names != [] { JoinSize(t.names); }
    }
  }

  predicate Plain(c: string) { IsName(c) && c != ".." }

  lemma WalkDot(a: string, b: string)
    requires Plain(a) && Plain(b)
    ensures WalkAll(true, [""] + [a] + ["."] + [b]) == Trail([a] + [b], false)
  {
    WalkOneMore(true, [], "");
    assert [] + [""] == [""] && [] + [a] == [a];
    WalkOneMore(true, [""], a);
    WalkOneMore(true, [""] + [a], ".");
    WalkOneMore(true, [""] + [a] + ["."], b);
  }

  lemma SplitDot(a: string, b: string)
    requires Plain(a) && Plain(b)
    ensures Split("/" + a + "/" + "." + "/" + b) == [""] + [a] + ["."] + [b]
  {
    SplitOne(a);
    SplitRoot(a);
    SplitName("/" + a, ".");
    SplitName("/" + a + "/" + ".", b);
  }

  /** A dot component goes away. */
  lemma DotGoes(a: string, b: string)
    requires Plain(a) && Plain(b)
    ensures Normalise("/" + a + "/" + "." + "/" + b) == "/" + a + "/" + b
  {
    SplitDot(a, b);
    WalkDot(a, b);
    var names := [a] + [b];
    assert names[..1] == [a] && Join([a]) == a && Join(names) == a + "/" + b;
    assert "/" + (a + "/" + b) + "" == "/" + a + "/" + b;
    RenderPlain(names);
  }

  lemma RenderPlain(names: seq<string>)
    requires names != []
    ensures Render(true, Trail(names, false)) == "/" + Join(names) + ""
  {
  }
}
