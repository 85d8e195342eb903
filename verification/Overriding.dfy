/**
 An input on which documents dispute a path, the imports are cyclic, and yet the schedule does not
 matter: a template and its import say different things, and the cycle is that of a profile which
 says nothing there.
 */
module Overriding {
  import opened Wrappers
  import opened Documents
  import opened Sights
  import opened ImportGraph
  import opened CyclicReads
  import opened Words

  function Plain(content: Content, imports: seq<Loc>): Source {
    Source(content, None, _ => imports)
  }

  function Key(token: string): Content {
    Content(map["k" := Leaf(token)])
  }

  const Empty := Content(map[])

  /** The template and its import both import the profile, whose two files import each other. */
  function OverridingEnv(): Env {
    Env("main",
        map["main" := Source(Key("1"), Some("simple"), _ => ["profile", "import"]),
            "import" := Plain(Key("2"), ["profile"]),
            "profile" := Plain(Empty, ["parts"]), "parts" := Plain(Empty, ["profile"])],
        (_, _) => true, _ => "simple")
  }

  function ImportNames(loc: Loc): seq<Loc> {
    match loc
    case "main" => ["profile", "import"]
    case "import" => ["profile"]
    case "profile" => ["parts"]
    case "parts" => ["profile"]
    case _ => []
  }

  lemma OverridingEdges(from: Loc, to: Loc)
    ensures Edge(OverridingEnv(), from, to) <==> to in ImportNames(from)
  {
    var env := OverridingEnv();
    if from in env.sources {
      ImportsAreImportable(env, from, to);
      assert ImportList(env, from) == ImportNames(from);
    }
  }

  /** The profile and its part are the core, and they say nothing at any path. */
  function OverridingLayout(path: seq<string>): Layout {
    Layout(_ => true, loc => loc in {"profile", "parts"}, _ => seq(|path|, _ => Nothing),
           loc => if loc == "main" then 1 else 0, 0)
  }

  lemma OverridingIsLaid(path: seq<string>)
    requires path != []
    ensures Laid(OverridingEnv(), OverridingLayout(path), path)
  {
    forall from, to
      ensures EdgeLaid(OverridingEnv(), OverridingLayout(path), path, from, to)
    {
      OverridingEdgeIsLaid(path, from, to);
    }
  }

  lemma OverridingEdgeIsLaid(path: seq<string>, from: Loc, to: Loc)
    requires path != []
    ensures EdgeLaid(OverridingEnv(), OverridingLayout(path), path, from, to)
  {
    OverridingEdges(from, to);
    if to in ImportNames(from) {
      NamesAreLaid(path, from, to);
    }
  }

  lemma NamesAreLaid(path: seq<string>, from: Loc, to: Loc)
    requires path != [] && to in ImportNames(from)
    ensures to in OverridingEnv().sources && (OverridingLayout(path).core(from) ==> OverridingLayout(path).core(to))
    ensures OverridingLayout(path).core(to) ==>
              Watch(OverridingEnv().sources[to].raw.entries, path, 0) == OverridingLayout(path).says(to)
    ensures !OverridingLayout(path).core(from) && !OverridingLayout(path).core(to) ==>
              OverridingLayout(path).rank(to) < OverridingLayout(path).rank(from)
  {
  }

  lemma OverridingIsUniform()
    ensures Uniform(OverridingEnv())
  {
    OneClassIsUniform(OverridingEnv());
  }

  lemma OverridingIsCyclic()
    ensures !Acyclic(OverridingEnv())
  {
    OverridingEdges("profile", "parts");
    OverridingEdges("parts", "profile");
    if Acyclic(OverridingEnv()) {
      ImportsRankLower(OverridingEnv(), "profile", "parts");
      ImportsRankLower(OverridingEnv(), "parts", "profile");
    }
  }

  lemma OverridingImports(env: Env, loc: Loc, imports: seq<Loc>)
    requires env == OverridingEnv() && loc in {"main", "import"} && imports == ImportNames(loc)
    ensures ImportsOf(env, loc) == imports
  {
    PlainImportsOf(env, loc, imports);
  }

  lemma ProfilesWord(env: Env, lay: Layout, path: seq<string>)
    requires env == OverridingEnv() && path == ["k"] && lay == OverridingLayout(path) && Laid(env, lay, path)
    ensures Word(env, lay, path, "profile") == [Nothing]
  {
  }

  lemma ImportsWord(env: Env, lay: Layout, path: seq<string>)
    requires env == OverridingEnv() && path == ["k"] && lay == OverridingLayout(path) && Laid(env, lay, path)
    ensures Word(env, lay, path, "import") == [ALeaf("2")]
  {
    OverridingImports(env, "import", ["profile"]);
    ProfilesWord(env, lay, path);
    WordNext(env, lay, path, "import", 0, "profile");
    KeyIsSeen("2");
  }

  lemma KeyIsSeen(token: string)
    ensures Watch(Key(token).entries, ["k"], 0) == [ALeaf(token)]
  {
  }

  /** The word of a location with two imports. */
  lemma WordOfTwo(env: Env, lay: Layout, path: seq<string>, loc: Loc, first: Loc, second: Loc)
    requires path != [] && Laid(env, lay, path) && lay.scope(loc) && loc in env.sources && !lay.core(loc)
    requires ImportsOf(env, loc) == [first, second]
    requires first in env.sources && lay.scope(first) && second in env.sources && lay.scope(second)
    ensures Word(env, lay, path, loc) ==
            Combine(Combine(Watch(env.sources[loc].raw.entries, path, lay.open), Word(env, lay, path, first)),
                    Word(env, lay, path, second))
  {
    WordNext(env, lay, path, loc, 0, first);
    WordNext(env, lay, path, loc, 1, second);
  }

  lemma MainsWord(env: Env, lay: Layout, path: seq<string>)
    requires env == OverridingEnv() && path == ["k"] && lay == OverridingLayout(path) && Laid(env, lay, path)
    ensures Word(env, lay, path, "main") == [ALeaf("2")]
  {
    OverridingImports(env, "main", ["profile", "import"]);
    WordOfTwo(env, lay, path, "main", "profile", "import");
    ProfilesWord(env, lay, path);
    ImportsWord(env, lay, path);
    KeyIsSeen("1");
  }

  lemma OverridingAccepts()
    ensures AllAccepted(OverridingEnv(), (_, _) => true)
  {
  }

  /**
   The imports are uniform and cyclic and two of the documents dispute what "k" is, but every cold read ends with
   the same document, in which the import has the last word.
   */
  lemma OverridingIsDecided(main1: Content, left1: map<Loc, Content>, main2: Content, left2: map<Loc, Content>)
    requires ReadGives(OverridingEnv(), map[], main1, left1) && ReadGives(OverridingEnv(), map[], main2, left2)
    ensures Uniform(OverridingEnv()) && !Acyclic(OverridingEnv())
    ensures See(Key("1").entries, ["k"]) != See(Key("2").entries, ["k"])
    ensures See(main1.entries, ["k"]) == ALeaf("2") && main1 == main2
  {
    OverridingIsUniform();
    OverridingIsCyclic();
    ImportSaysLast(main1, left1);
    OverridingAgrees(main1, left1, main2, left2);
  }

  lemma MainSays(lay: Layout, main: Content, left: map<Loc, Content>)
    requires lay == OverridingLayout(["k"]) && ReadGives(OverridingEnv(), map[], main, left)
    ensures Laid(OverridingEnv(), lay, ["k"]) && Says(OverridingEnv(), lay, ["k"], "main", main)
  {
    OverridingAccepts();
    OverridingIsLaid(["k"]);
    ReadSays(OverridingEnv(), lay, ["k"], (_, _) => true, map[], main, left);
  }

  lemma ImportSaysLast(main: Content, left: map<Loc, Content>)
    requires ReadGives(OverridingEnv(), map[], main, left)
    ensures See(main.entries, ["k"]) == ALeaf("2")
  {
    var lay := OverridingLayout(["k"]);
    MainSays(lay, main, left);
    MainShows(lay, main);
  }

  lemma MainShows(lay: Layout, main: Content)
    requires lay == OverridingLayout(["k"]) && Laid(OverridingEnv(), lay, ["k"])
    requires Says(OverridingEnv(), lay, ["k"], "main", main)
    ensures See(main.entries, ["k"]) == ALeaf("2")
  {
    MainsWord(OverridingEnv(), lay, ["k"]);
    WatchEndsInSight(main.entries, ["k"], 0);
  }

  lemma OverridingAgrees(main1: Content, left1: map<Loc, Content>, main2: Content, left2: map<Loc, Content>)
    requires ReadGives(OverridingEnv(), map[], main1, left1) && ReadGives(OverridingEnv(), map[], main2, left2)
    ensures main1 == main2
  {
    OverridingAccepts();
    forall path: seq<string> | path != []
      ensures Decided(OverridingEnv(), [], OverridingEnv().main, path)
    {
      PathIsDecided(path);
    }
    ColdReadsAgree(OverridingEnv(), (_, _) => true, main1, left1, main2, left2);
  }

  lemma PathIsDecided(path: seq<string>)
    requires path != []
    ensures Decided(OverridingEnv(), [], OverridingEnv().main, path)
  {
    OverridingIsLaid(path);
  }
}
