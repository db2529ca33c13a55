/** Paths written relative to a base path, and joined to it again. */
module GoPathRelative {
  import opened GoPath

  /** The base path as a prefix. */
  function BasePrefix(base: string): string {
    Join(TrimSuffix(base, "/"), "/")
  }

  function Relative(base: string, path: string): string {
    TrimPrefix(TrimPrefix(path, BasePrefix(base)), "/")
  }

  ghost predicate AllPlain(names: seq<string>) {
    forall i :: 0 <= i < |names| ==> Plain(names[i])
  }

  /** The path of some names below a base path. */
  function Below(base: string, names: seq<string>): string {
    Render(Path(Rooted(base), Parse(base).parts + names))
  }

  lemma SlashedNone()
    ensures Slashed([]) == ""
  {}

  lemma SlashedOne(name: string)
    ensures Slashed([name]) == name
  {}

  lemma RenderRoot()
    ensures Render(Path(true, [])) == "/"
  {}

  lemma {:induction false} SlashedConcat(a: seq<string>, b: seq<string>)
    requires a != [] && b != []
    ensures Slashed(a + b) == Slashed(a) + "/" + Slashed(b)
  {
    if |a| > 1 {
      SlashedConcat(a[1..], b);
      assert (a + b)[1..] == a[1..] + b;
    } else {
      assert a + b == [a[0]] + b;
    }
  }

  lemma {:induction false} NormalBelow(base: string, names: seq<string>)
    requires AllPlain(names)
    ensures Normal(Rooted(base), Parse(base).parts + names)
  {
    hide Parse;
    ParseIsNormal(base);
  }

  // Joining names to the base again.
  lemma {:induction false} JoinBelow(base: string, names: seq<string>)
    requires AllPlain(names) && names != []
    ensures Join(base, Slashed(names)) == Below(base, names)
  {
    hide Split, Reduce, Slashed, Render;
    SlashedHead(names);
    SplitSlashed(names);
    NormalBelow(base, names);
    ReduceKeeps(Rooted(base), Parse(base).parts, names);
    if base == "" {
      ParseEmpty();
      assert [] + names == names;
      assert Plain(names[0]);
    } else {
      ParseSlash(base, Slashed(names));
    }
  }

  lemma ParseRooted(s: string)
    ensures Parse(s).rooted == Rooted(s)
  {}

  lemma ParseEmpty()
    ensures Parse("") == Path(false, [])
  {
    SplitWhole("");
    ReduceEmpty(false, []);
  }

  // A slash at the end makes no difference.
  lemma {:induction false} ParseTrailing(a: string)
    requires a != ""
    ensures Parse(a + "/") == Parse(a)
  {
    hide Split, Reduce;
    ParseSlash(a, "");
    assert a + "/" + "" == a + "/";
    SplitWhole("");
    ReduceEmpty(Rooted(a), Parse(a).parts);
  }

  lemma {:induction false} PrefixIsClean(base: string)
    ensures BasePrefix(base) == if base == "" then "/" else Clean(base)
  {
    hide Parse, Render, Split, Slashed;
    var t := TrimSuffix(base, "/");
    if t == "" {
      ParseRoots();
      SlashedNone();
      assert "/" + "" == "/";
      RenderRoot();
      assert base == "" || base == "/";
    } else {
      ParseTrailing(t);
      ParseTrailing(t + "/");
      assert t + "/" + "/" == t + "/" + "/";
      assert base == t || base == t + "/";
    }
  }

  /** Where the base path is not `.`, the part below it is what trimming leaves. */
  lemma {:induction false} RelativeBelow(base: string, names: seq<string>)
    requires AllPlain(names) && names != [] && (base != "" ==> Clean(base) != ".")
    ensures Relative(base, Below(base, names)) == Slashed(names)
  {
    hide Parse, Split, Slashed;
    var parts := Parse(base).parts;
    PrefixIsClean(base);
    SlashedHead(names);
    assert Plain(names[0]);
    hide AllPlain, Plain;
    if base == "" {
      ParseEmpty();
      assert [] + names == names;
    } else if parts == [] {
      assert [] + names == names;
      SlashedNone();
    } else {
      ParseRooted(base);
      SlashedConcat(parts, names);
      TrimBelow(Rooted(base), Slashed(parts), Slashed(names));
    }
  }

  lemma TrimBelow(rooted: bool, a: string, b: string)
    ensures var root := if rooted then "/" else "";
            TrimPrefix(TrimPrefix(root + (a + "/" + b), root + a), "/") == b
  {
    var root := if rooted then "/" else "";
    assert (root + (a + "/" + b))[..|root + a|] == root + a;
    assert (root + (a + "/" + b))[|root + a|..] == "/" + b;
  }

  // Under `.` a leading dot goes with the prefix.
  lemma {:induction false} RelativeDot(base: string, names: seq<string>)
    requires AllPlain(names) && names != [] && base != "" && Clean(base) == "."
    ensures Below(base, names) == Slashed(names)
    ensures Relative(base, Below(base, names)) == if names[0][0] == '.' then Slashed(names)[1..] else Slashed(names)
  {
    PrefixIsClean(base);
    ParseRooted(base);
    DotIsEmpty(base);
    hide Parse, Split, Slashed;
    assert [] + names == names;
    SlashedHead(names);
    assert Plain(names[0]);
    SlashedSecond(names);
  }

  lemma {:induction false} SlashedSecond(names: seq<string>)
    requires names != [] && Plain(names[0])
    ensures names[0][0] == '.' ==> |names[0]| > 1 && |Slashed(names)| > 1 && Slashed(names)[1] == names[0][1] != '/'
  {
    if names[0][0] == '.' { assert names[0] != "."; }
  }

  lemma RootIsNoDot(p: Path)
    ensures Render(p) == "." ==> !p.rooted
  {
    assert p.rooted ==> Render(p)[0] == '/';
  }

  lemma {:induction false} DotIsEmpty(base: string)
    requires Clean(base) == "."
    ensures Parse(base) == Path(false, [])
  {
    ParseIsNormal(base);
    hide Split, Reduce, Slashed;
    var p := Parse(base);
    RootIsNoDot(p);
    if p.parts != [] {
      assert p.parts[0] != ".";
      SplitSlashed(p.parts);
      SplitWhole(".");
    }
  }

  // A first name without its dot is another name.
  lemma Undotted(names: seq<string>)
    requires AllPlain(names) && names != [] && names[0][0] == '.'
    ensures var bare := [names[0][1..]] + names[1..]; Normal(false, bare) && bare != names
  {
    var bare := [names[0][1..]] + names[1..];
    assert names[0] != "." && names[0] != "..";
    assert forall i :: 1 <= i < |bare| ==> bare[i] == names[i];
    assert |bare[0]| < |names[0]|;
  }

  lemma {:induction false} LosesDot(base: string, names: seq<string>)
    requires AllPlain(names) && names != [] && base != "" && Clean(base) == "." && names[0][0] == '.'
    ensures |Slashed(names)| > 1 && Join(base, Slashed(names)[1..]) != Below(base, names)
  {
    var bare := [names[0][1..]] + names[1..];
    Undotted(names);
    NormalBelow(base, names);
    SlashedSecond(names);
    SlashedTail(names);
    hide Split, Reduce, Slashed, Render, AllPlain, Normal;
    DotIsEmpty(base);
    assert [] + bare == bare && [] + names == names;
    SplitBare(bare);
    ParseSlash(base, Slashed(bare));
    ReduceKeeps(false, [], bare);
    ParseRender(Path(false, bare));
    ParseRender(Path(false, names));
  }

  lemma {:induction false} SplitBare(parts: seq<string>)
    requires Normal(false, parts) && parts != []
    ensures Split(Slashed(parts)) == parts && Slashed(parts) != ""
  {
    hide Split, Slashed;
    SplitSlashed(parts);
    SlashedHead(parts);
  }

  lemma {:induction false} SlashedTail(names: seq<string>)
    requires names != [] && names[0] != ""
    ensures Slashed(names)[1..] == Slashed([names[0][1..]] + names[1..])
  {
    var bare := [names[0][1..]] + names[1..];
    assert bare[1..] == names[1..];
    if |names| > 1 { assert Slashed(names)[1..] == names[0][1..] + "/" + Slashed(names[1..]); }
  }

  /**
    * What is left of a path below the base, joined to the base, is that path again, except below
    * `.`, where a leading dot of the first name is lost.
    */
  lemma {:induction false} RejoinIff(base: string, names: seq<string>)
    requires AllPlain(names) && names != []
    ensures Join(base, Relative(base, Below(base, names))) == Below(base, names)
       <==> !(base != "" && Clean(base) == "." && names[0][0] == '.')
  {
    assert Plain(names[0]) && names[0] != "";
    hide Join, Clean, Relative, Below, AllPlain, Plain;
    JoinBelow(base, names);
    if base != "" && Clean(base) == "." {
      RelativeDot(base, names);
      if names[0][0] == '.' { LosesDot(base, names); }
    } else {
      RelativeBelow(base, names);
    }
  }

  /** Below an absolute base path nothing is lost. */
  lemma {:induction false} RejoinAbsolute(base: string, names: seq<string>)
    requires AllPlain(names) && names != [] && Rooted(base)
    ensures Join(base, Relative(base, Below(base, names))) == Below(base, names)
  {
    RejoinIff(base, names);
    if Clean(base) == "." { DotIsEmpty(base); }
  }

  // ----- Last names -----

  lemma {:induction false} BaseOfName(s: string, name: string)
    requires Plain(name)
    ensures Base(s + "/" + name) == name
  {
    var whole := s + "/" + name;
    assert whole[|whole| - 1] == name[|name| - 1] && name[|name| - 1] in name;
    assert TrimSlashes(whole) == whole;
    hide Split, TrimSlashes;
    SplitSlash(s, name);
    SplitWhole(name);
    assert (Split(s) + [name])[|Split(s)|] == name;
  }

  lemma {:induction false} BaseOfWhole(name: string)
    requires Plain(name)
    ensures Base(name) == name
  {
    assert name[|name| - 1] in name;
    assert TrimSlashes(name) == name;
    SplitWhole(name);
  }

  lemma {:induction false} BaseOfRender(rooted: bool, parts: seq<string>, name: string)
    requires Plain(name)
    ensures Base(Render(Path(rooted, parts + [name]))) == name
  {
    hide Slashed, Base;
    SlashedOne(name);
    if parts == [] {
      assert parts + [name] == [name];
      BaseOfWhole(name);
      BaseOfName("", name);
      assert "" + "/" + name == "/" + name;
    } else {
      SlashedConcat(parts, [name]);
      var root := if rooted then "/" else "";
      assert Render(Path(rooted, parts + [name])) == (root + Slashed(parts)) + "/" + name;
      BaseOfName(root + Slashed(parts), name);
    }
  }
}
