/** The logging configuration of containers, a concrete tree of layered settings. */
module ContainerLogConfig {
  import opened Wrappers
  import opened Lexicographic
  import opened ConfigMerge
  import opened ConfigFragment

  const LOGGER := StructShape([FieldShape("level", AtomShape(true))])
  const APPENDER := StructShape([FieldShape("level", AtomShape(false))])

  const AUTOMATIC := StructShape([
    FieldShape("loggers", MapShape(LOGGER, LEXICOGRAPHIC)),
    FieldShape("console", SectionShape(APPENDER)),
    FieldShape("file", SectionShape(APPENDER))])

  const CUSTOM := StructShape([FieldShape("custom", StructShape([FieldShape("config_map", AtomShape(true))]))])

  const CONTAINER := StructShape([FieldShape("choice", EnumShape(map["Custom" := CUSTOM, "Automatic" := AUTOMATIC]))])

  /** Containers are ordered as their type says, which need not be the order of their names. */
  function LoggingShape(order: KeyOrder): Shape {
    StructShape([
      FieldShape("enable_vector_agent", AtomShape(true)),
      FieldShape("containers", MapShape(CONTAINER, order))])
  }

  function AutomaticFragment(
    loggers: map<string, Fragment>, console: Option<Fragment>, file: Option<Fragment>): Fragment
  {
    Struct([Map(loggers), Section(console), Section(file)])
  }

  /** A section is merged if both sides have it, and copied if only the defaults have it. */
  method MergeSection(self: Option<Fragment>, defaults: Option<Fragment>) returns (r: Option<Fragment>)
    ensures Section(r) == Merge(Section(self), Section(defaults))
  {
    if self.Some? {
      r := self;
      if defaults.Some? {
        r := Some(Merge(self.value, defaults.value));
      }
    } else {
      r := defaults;
    }
  }

  /** The hand-written in-place merge of an automatic log configuration. */
  class AutomaticLogConfig {
    const loggers: MapCell
    var console: Option<Fragment>
    var file: Option<Fragment>

    ghost function View(): Fragment
      reads this, loggers
    {
      AutomaticFragment(loggers.entries, console, file)
    }

    constructor (loggers: map<string, Fragment>, console: Option<Fragment>, file: Option<Fragment>)
      ensures View() == AutomaticFragment(loggers, console, file) && fresh(this.loggers)
    {
      var cell := new MapCell(loggers);
      this.loggers, this.console, this.file := cell, console, file;
    }

    /** It is the structural merge of its three fields. */
    method MergeInPlace(
      defaultLoggers: map<string, Fragment>, defaultConsole: Option<Fragment>, defaultFile: Option<Fragment>)
      modifies this, loggers
      ensures View() == Merge(old(View()), AutomaticFragment(defaultLoggers, defaultConsole, defaultFile))
    {
      loggers.MergeInPlace(defaultLoggers);
      console := MergeSection(console, defaultConsole);
      file := MergeSection(file, defaultFile);
    }
  }

  predicate IsCustom(layer: Fragment) {
    layer.Enum? && layer.choice.Some? && layer.choice.value.tag == "Custom"
  }

  predicate IsAutomatic(layer: Fragment) {
    layer.Enum? && layer.choice.Some? && layer.choice.value.tag == "Automatic"
  }

  /**
   * A custom log configuration of a role between two automatic ones hides the operator's defaults:
   * the automatic configuration of the role group then stands alone.
   */
  lemma CustomRoleHidesAutomaticDefaults(roleGroup: Fragment, role: Fragment, defaults: Fragment)
    requires IsAutomatic(roleGroup) && IsCustom(role) && defaults.Enum?
    ensures MergeAll([roleGroup, role, defaults]) == roleGroup
  {
  }

  ghost predicate Required(sh: Shape, path: seq<Segment>) {
    ShapeAt(sh, path) == Some(AtomShape(true))
  }

  /** A composite shape has its required leaves below its parts only. */
  lemma RequiredBelow(sh: Shape, path: seq<Segment>)
    requires !sh.AtomShape?
    ensures Required(sh, path) <==>
            path != [] && ChildShape(sh, path[0]).Some? && Required(ChildShape(sh, path[0]).value, path[1..])
  {
  }

  lemma RequiredOfAtom(required: bool, path: seq<Segment>)
    ensures Required(AtomShape(required), path) <==> required && path == []
  {
  }

  lemma RequiredOfAppender(path: seq<Segment>)
    ensures !Required(SectionShape(APPENDER), path)
  {
    RequiredBelow(SectionShape(APPENDER), path);
    if path != [] {
      var rest := path[1..];
      RequiredBelow(APPENDER, rest);
      if rest != [] {
        RequiredOfAtom(false, rest[1..]);
      }
    }
  }

  lemma RequiredOfLoggers(path: seq<Segment>)
    ensures Required(MapShape(LOGGER, LEXICOGRAPHIC), path) <==> |path| == 2 && path[0].Key? && path[1] == Field(0)
  {
    RequiredBelow(MapShape(LOGGER, LEXICOGRAPHIC), path);
    if path != [] {
      var rest := path[1..];
      RequiredBelow(LOGGER, rest);
      if rest != [] {
        RequiredOfAtom(true, rest[1..]);
      }
    }
  }

  lemma RequiredOfAutomatic(path: seq<Segment>)
    ensures Required(AUTOMATIC, path) <==> |path| == 3 && path[0] == Field(0) && path[1].Key? && path[2] == Field(0)
  {
    RequiredBelow(AUTOMATIC, path);
    if path != [] {
      RequiredOfLoggers(path[1..]);
      RequiredOfAppender(path[1..]);
    }
  }

  lemma RequiredOfCustom(path: seq<Segment>)
    ensures Required(CUSTOM, path) <==> path == [Field(0), Field(0)]
  {
    RequiredBelow(CUSTOM, path);
    if path != [] {
      var rest := path[1..];
      RequiredBelow(CUSTOM.fields[0].shape, rest);
      if rest != [] {
        RequiredOfAtom(true, rest[1..]);
      }
    }
  }

  lemma RequiredOfContainer(path: seq<Segment>)
    ensures Required(CONTAINER, path) <==>
            || path == [Field(0), Payload("Custom"), Field(0), Field(0)]
            || (|path| == 5 && path[..3] == [Field(0), Payload("Automatic"), Field(0)] && path[3].Key? && path[4] == Field(0))
  {
    RequiredBelow(CONTAINER, path);
    if path != [] {
      var rest := path[1..];
      RequiredBelow(CONTAINER.fields[0].shape, rest);
      if rest != [] {
        RequiredOfCustom(rest[1..]);
        RequiredOfAutomatic(rest[1..]);
      }
    }
  }

  // ----- Validation of a logging configuration -----

  /** A required setting that no contributing layer sets. */
  datatype Gap =
    | AgentUnset
    | ConfigMapUnset(container: string)
    | LevelUnset(container: string, logger: string)

  const AGENT := [Field(0)]
  const CONFIG_MAP := [Field(0), Field(0)]

  function LevelOf(logger: string): seq<Segment> {
    [Field(0), Key(logger), Field(0)]
  }

  /** The path of a setting of one variant of a container. */
  function InContainer(container: string, tag: string, path: seq<Segment>): seq<Segment> {
    [Field(1)] + ([Key(container)] + ([Field(0)] + ([Payload(tag)] + path)))
  }

  function GapPath(g: Gap): seq<Segment> {
    match g
    case AgentUnset => AGENT
    case ConfigMapUnset(c) => InContainer(c, "Custom", CONFIG_MAP)
    case LevelUnset(c, l) => InContainer(c, "Automatic", LevelOf(l))
  }

  /** The names from the root to a gap. */
  function GapNames(g: Gap): seq<string> {
    match g
    case AgentUnset => ["enable_vector_agent"]
    case ConfigMapUnset(c) => ["containers", c] + (["choice"] + ["custom", "config_map"])
    case LevelUnset(c, l) => ["containers", c] + (["choice"] + ["loggers", l, "level"])
  }

  /** The agent first, then the containers in their order, then the loggers of a container by name. */
  predicate GapBefore(order: KeyOrder, g: Gap, h: Gap) {
    if g.AgentUnset? || h.AgentUnset? then g.AgentUnset? && !h.AgentUnset?
    else if g.container != h.container then order(g.container, h.container)
    else g.LevelUnset? && h.LevelUnset? && Less(g.logger, h.logger)
  }

  /** The gap that a path leads to. */
  function GapAt(path: seq<Segment>): Gap {
    if |path| == 6 && path[1].Key? then ConfigMapUnset(path[1].key)
    else if |path| == 7 && path[1].Key? && path[5].Key? then LevelUnset(path[1].key, path[5].key)
    else AgentUnset
  }

  lemma GapOfItsPath(g: Gap)
    ensures GapAt(GapPath(g)) == g
  {
  }

  lemma RequiredIsGap(order: KeyOrder, path: seq<Segment>)
    requires Required(LoggingShape(order), path)
    ensures path == GapPath(GapAt(path))
  {
    RequiredBelow(LoggingShape(order), path);
    RequiredOfAtom(true, path[1..]);
    if path[0] == Field(1) {
      RequiredBelow(MapShape(CONTAINER, order), path[1..]);
      assert path[1..][1..] == path[2..];
      RequiredOfContainer(path[2..]);
    }
  }

  lemma GapIsRequired(order: KeyOrder, g: Gap)
    ensures Required(LoggingShape(order), GapPath(g))
  {
    var path := GapPath(g);
    RequiredBelow(LoggingShape(order), path);
    if g.AgentUnset? {
      RequiredOfAtom(true, path[1..]);
    } else {
      RequiredBelow(MapShape(CONTAINER, order), path[1..]);
      assert path[1..][1..] == path[2..];
      RequiredOfContainer(path[2..]);
    }
  }

  /**
   * The required leaves of a logging configuration: whether the agent is enabled, the config map of
   * every custom container and the level of every named logger, but the level of no appender.
   */
  lemma RequiredOfLogging(order: KeyOrder, path: seq<Segment>)
    ensures Required(LoggingShape(order), path) <==> path == GapPath(GapAt(path))
  {
    if Required(LoggingShape(order), path) {
      RequiredIsGap(order, path);
    }
    GapIsRequired(order, GapAt(path));
  }

  /** The choices of the layers for a container, most specific first. */
  function Choices(layers: seq<Fragment>, container: string): seq<Fragment> {
    Collect(Collect(Collect(layers, Field(1)), Key(container)), Field(0))
  }

  /** The payloads that count: of the set layers before the first one with another variant. */
  function Payloads(layers: seq<Fragment>, container: string, tag: string): seq<Fragment> {
    LeadingPayloads(Choices(layers, container), tag)
  }

  predicate SetsAt(f: Fragment, path: seq<Segment>) {
    At(f, path).Some? && IsSet(At(f, path).value)
  }

  /**
   * No layer sets the agent switch; or the merged choice of a container is custom and no counting
   * layer sets the config map; or it is automatic, a counting layer names the logger and none sets
   * its level.
   */
  ghost predicate IsGap(layers: seq<Fragment>, g: Gap) {
    match g
    case AgentUnset => forall layer :: layer in layers ==> !SetsAt(layer, AGENT)
    case ConfigMapUnset(c) =>
      && FirstTag(Choices(layers, c)) == Some("Custom")
      && forall p :: p in Payloads(layers, c, "Custom") ==> !SetsAt(p, CONFIG_MAP)
    case LevelUnset(c, l) =>
      && FirstTag(Choices(layers, c)) == Some("Automatic")
      && (exists p :: p in Payloads(layers, c, "Automatic") && At(p, LevelOf(l)).Some?)
      && forall p :: p in Payloads(layers, c, "Automatic") ==> !SetsAt(p, LevelOf(l))
  }

  /** A setting below the payloads is unset exactly if some payload has it and none sets it. */
  lemma UnsetBelow(payloads: seq<Fragment>, path: seq<Segment>)
    requires forall seg :: seg in path ==> !seg.Payload?
    ensures Contributing(payloads, path) != [] <==> exists p :: p in payloads && At(p, path).Some?
    ensures FirstSet(Contributing(payloads, path)).None? <==> forall p :: p in payloads ==> !SetsAt(p, path)
  {
    var contributing := Contributing(payloads, path);
    NothingSet(contributing);
    forall f: Fragment
      ensures f in contributing <==> exists p :: p in payloads && At(p, path) == Some(f)
    {
      ContributingMembers(payloads, path, f);
    }
    if contributing != [] {
      assert contributing[0] in contributing;
    }
    forall p | p in payloads && At(p, path).Some?
      ensures At(p, path).value in contributing
    {
    }
  }

  /** The payloads of a variant count exactly if it is the merged one. */
  lemma PayloadsOfMergedVariant(layers: seq<Fragment>, tag: string)
    requires forall i :: 0 <= i < |layers| ==> layers[i].Enum?
    ensures LeadingPayloads(layers, tag) != [] <==> FirstTag(layers) == Some(tag)
  {
    if FirstTag(layers) != Some(tag) {
      OtherVariantFirst(layers, tag);
    } else {
      MergedEnumLayers(layers);
    }
  }

  lemma ConfigMapExists(p: Fragment)
    requires HasShape(p, CUSTOM)
    ensures At(p, CONFIG_MAP).Some?
  {
    assert HasShape(p.fields[0], CUSTOM.fields[0].shape);
    assert CONFIG_MAP[1..] == [Field(0)] && CONFIG_MAP[1..][1..] == [];
    assert At(p.fields[0], [Field(0)]) == At(p.fields[0].fields[0], []);
  }

  /** What the layers say about the choice of a container. */
  lemma ChoicesOfLayers(layers: seq<Fragment>, order: KeyOrder, container: string, tag: string)
    requires AllHaveShape(layers, LoggingShape(order))
    ensures Payloads(layers, container, tag) != [] <==> FirstTag(Choices(layers, container)) == Some(tag)
    ensures tag == "Custom" ==> AllHaveShape(Payloads(layers, container, tag), CUSTOM)
  {
    var choice := CONTAINER.fields[0].shape;
    var containers := Collect(layers, Field(1));
    NarrowKeepsShape(layers, LoggingShape(order), Field(1));
    NarrowKeepsShape(containers, MapShape(CONTAINER, order), Key(container));
    NarrowKeepsShape(Collect(containers, Key(container)), CONTAINER, Field(0));
    var choices := Choices(layers, container);
    assert forall i :: 0 <= i < |choices| ==> HasShape(choices[i], choice);
    PayloadsOfMergedVariant(choices, tag);
    NarrowKeepsShape(choices, choice, Payload(tag));
  }

  lemma ContributingBelow(layers: seq<Fragment>, seg: Segment, path: seq<Segment>)
    ensures Contributing(layers, [seg] + path) == Contributing(Narrow(layers, seg), path)
  {
    assert ([seg] + path)[1..] == path;
  }

  /** The merged choice of a container has the variant of the first set layer. */
  lemma MergedVariant(layers: seq<Fragment>, order: KeyOrder, container: string, tag: string)
    requires layers != [] && AllHaveShape(layers, LoggingShape(order))
    ensures At(MergeAll(layers), [Field(1)] + ([Key(container)] + ([Field(0)] + [Payload(tag)]))).Some? <==>
            FirstTag(Choices(layers, container)) == Some(tag)
  {
    var path := [Field(1)] + ([Key(container)] + ([Field(0)] + [Payload(tag)]));
    assert [Payload(tag)] + [] == [Payload(tag)];
    assert path == InContainer(container, tag, []);
    MergedLayersAtPath(layers, LoggingShape(order), path);
    ContributingInContainer(layers, container, tag, []);
    ChoicesOfLayers(layers, order, container, tag);
  }

  /** What contributes to a setting of a container. */
  lemma ContributingInContainer(layers: seq<Fragment>, container: string, tag: string, path: seq<Segment>)
    ensures Contributing(layers, InContainer(container, tag, path)) ==
            Contributing(Payloads(layers, container, tag), path)
  {
    var choice := [Payload(tag)] + path;
    var containers := Collect(layers, Field(1));
    ContributingBelow(layers, Field(1), [Key(container)] + ([Field(0)] + choice));
    ContributingBelow(containers, Key(container), [Field(0)] + choice);
    ContributingBelow(Collect(containers, Key(container)), Field(0), choice);
    ContributingBelow(Choices(layers, container), Payload(tag), path);
  }

  lemma AgentGap(layers: seq<Fragment>, order: KeyOrder)
    requires layers != [] && AllHaveShape(layers, LoggingShape(order))
    ensures IsGap(layers, AgentUnset) <==> Unset(layers, LoggingShape(order), GapPath(AgentUnset))
  {
    UnsetBelow(layers, AGENT);
    assert HasShape(layers[0], LoggingShape(order));
    assert AGENT[1..] == [] && At(layers[0], AGENT) == At(layers[0].fields[0], []);
    assert layers[0] in layers;
    GapIsRequired(order, AgentUnset);
  }

  lemma ConfigMapGap(layers: seq<Fragment>, order: KeyOrder, c: string)
    requires AllHaveShape(layers, LoggingShape(order))
    ensures IsGap(layers, ConfigMapUnset(c)) <==> Unset(layers, LoggingShape(order), GapPath(ConfigMapUnset(c)))
  {
    var payloads := Payloads(layers, c, "Custom");
    ChoicesOfLayers(layers, order, c, "Custom");
    ContributingInContainer(layers, c, "Custom", CONFIG_MAP);
    UnsetBelow(payloads, CONFIG_MAP);
    if payloads != [] {
      ConfigMapExists(payloads[0]);
      assert payloads[0] in payloads;
    }
    GapIsRequired(order, ConfigMapUnset(c));
  }

  lemma LevelGap(layers: seq<Fragment>, order: KeyOrder, c: string, l: string)
    requires AllHaveShape(layers, LoggingShape(order))
    ensures IsGap(layers, LevelUnset(c, l)) <==> Unset(layers, LoggingShape(order), GapPath(LevelUnset(c, l)))
  {
    ChoicesOfLayers(layers, order, c, "Automatic");
    ContributingInContainer(layers, c, "Automatic", LevelOf(l));
    UnsetBelow(Payloads(layers, c, "Automatic"), LevelOf(l));
    GapIsRequired(order, LevelUnset(c, l));
  }

  lemma GapIsUnset(layers: seq<Fragment>, order: KeyOrder, g: Gap)
    requires layers != [] && AllHaveShape(layers, LoggingShape(order))
    ensures IsGap(layers, g) <==> Unset(layers, LoggingShape(order), GapPath(g))
  {
    match g
    case AgentUnset => AgentGap(layers, order);
    case ConfigMapUnset(c) => ConfigMapGap(layers, order, c);
    case LevelUnset(c, l) => LevelGap(layers, order, c, l);
  }

  // ----- The reported text -----

  function SegmentName(sh: Shape, seg: Segment): seq<string>
    requires ChildShape(sh, seg).Some?
  {
    match seg
    case Field(i) => [sh.fields[i].name]
    case Key(k) => [k]
    case _ => []
  }

  lemma NamesBelow(sh: Shape, seg: Segment, q: seq<Segment>)
    requires ChildShape(sh, seg).Some? && ShapeAt(ChildShape(sh, seg).value, q).Some?
    ensures ShapeAt(sh, [seg] + q).Some?
    ensures Names(sh, [seg] + q) == SegmentName(sh, seg) + Names(ChildShape(sh, seg).value, q)
  {
    assert ([seg] + q)[1..] == q;
  }

  lemma NamesOfConfigMap()
    ensures ShapeAt(CUSTOM, CONFIG_MAP).Some? && Names(CUSTOM, CONFIG_MAP) == ["custom", "config_map"]
  {
    var inner := CUSTOM.fields[0].shape;
    NamesBelow(inner, Field(0), []);
    NamesBelow(CUSTOM, Field(0), [Field(0)]);
    assert [Field(0)] + [] == [Field(0)] && [Field(0)] + [Field(0)] == CONFIG_MAP;
  }

  lemma NamesOfLevel(l: string)
    ensures ShapeAt(AUTOMATIC, LevelOf(l)).Some? && Names(AUTOMATIC, LevelOf(l)) == ["loggers", l, "level"]
  {
    NamesBelow(LOGGER, Field(0), []);
    NamesBelow(MapShape(LOGGER, LEXICOGRAPHIC), Key(l), [Field(0)]);
    NamesBelow(AUTOMATIC, Field(0), [Key(l), Field(0)]);
    assert [Field(0)] + [] == [Field(0)] && [Key(l)] + [Field(0)] == [Key(l), Field(0)];
    assert [Field(0)] + [Key(l), Field(0)] == LevelOf(l);
  }

  lemma NamesInChoice(tag: string, q: seq<Segment>)
    requires tag in CONTAINER.fields[0].shape.variants && ShapeAt(CONTAINER.fields[0].shape.variants[tag], q).Some?
    ensures ShapeAt(CONTAINER, [Field(0)] + ([Payload(tag)] + q)).Some?
    ensures Names(CONTAINER, [Field(0)] + ([Payload(tag)] + q)) ==
            ["choice"] + Names(CONTAINER.fields[0].shape.variants[tag], q)
  {
    NamesBelow(CONTAINER.fields[0].shape, Payload(tag), q);
    NamesBelow(CONTAINER, Field(0), [Payload(tag)] + q);
  }

  lemma NamesInContainer(order: KeyOrder, c: string, q: seq<Segment>)
    requires ShapeAt(CONTAINER, q).Some?
    ensures ShapeAt(LoggingShape(order), [Field(1)] + ([Key(c)] + q)).Some?
    ensures Names(LoggingShape(order), [Field(1)] + ([Key(c)] + q)) == ["containers", c] + Names(CONTAINER, q)
  {
    NamesBelow(MapShape(CONTAINER, order), Key(c), q);
    NamesBelow(LoggingShape(order), Field(1), [Key(c)] + q);
    assert ["containers"] + ([c] + Names(CONTAINER, q)) == ["containers", c] + Names(CONTAINER, q);
  }

  /** The names on the path to a gap. */
  lemma NamesOfGap(order: KeyOrder, g: Gap)
    ensures ShapeAt(LoggingShape(order), GapPath(g)).Some?
    ensures Names(LoggingShape(order), GapPath(g)) == GapNames(g)
  {
    match g
    case AgentUnset =>
      NamesBelow(LoggingShape(order), Field(0), []);
      assert [Field(0)] + [] == AGENT;
    case ConfigMapUnset(c) =>
      NamesOfConfigMap();
      NamesInChoice("Custom", CONFIG_MAP);
      NamesInContainer(order, c, [Field(0)] + ([Payload("Custom")] + CONFIG_MAP));
    case LevelUnset(c, l) =>
      NamesOfLevel(l);
      NamesInChoice("Automatic", LevelOf(l));
      NamesInContainer(order, c, [Field(0)] + ([Payload("Automatic")] + LevelOf(l)));
  }

  // ----- The first gap -----

  lemma BeforeBelow(sh: Shape, seg: Segment, p: seq<Segment>, q: seq<Segment>)
    requires ChildShape(sh, seg).Some?
    ensures Before(sh, [seg] + p, [seg] + q) <==> Before(ChildShape(sh, seg).value, p, q)
  {
    assert ([seg] + p)[1..] == p && ([seg] + q)[1..] == q;
  }

  lemma {:induction false} NotBeforeItself(sh: Shape, p: seq<Segment>)
    ensures !Before(sh, p, p)
    decreases |p|
  {
    if p != [] && ChildShape(sh, p[0]).Some? {
      NotBeforeItself(ChildShape(sh, p[0]).value, p[1..]);
    }
  }

  lemma LevelsAreOrdered(l: string, m: string)
    requires Before(AUTOMATIC, LevelOf(l), LevelOf(m))
    ensures Less(l, m)
  {
    var (p, q) := ([Key(l)] + [Field(0)], [Key(m)] + [Field(0)]);
    assert LevelOf(l) == [Field(0)] + p && LevelOf(m) == [Field(0)] + q;
    BeforeBelow(AUTOMATIC, Field(0), p, q);
    if l == m {
      NotBeforeItself(MapShape(LOGGER, LEXICOGRAPHIC), p);
    }
  }

  /** Settings of two containers are ordered as these, of one container within the variant. */
  lemma BeforeInContainer(order: KeyOrder, c: string, tag: string, p: seq<Segment>, d: string, tag': string, q: seq<Segment>)
    requires tag in CONTAINER.fields[0].shape.variants
    requires Before(LoggingShape(order), InContainer(c, tag, p), InContainer(d, tag', q))
    ensures if c != d then order(c, d) else tag == tag' && Before(CONTAINER.fields[0].shape.variants[tag], p, q)
  {
    var (choice, choice') := ([Payload(tag)] + p, [Payload(tag')] + q);
    BeforeBelow(LoggingShape(order), Field(1), [Key(c)] + ([Field(0)] + choice), [Key(d)] + ([Field(0)] + choice'));
    if c == d {
      BeforeBelow(MapShape(CONTAINER, order), Key(c), [Field(0)] + choice, [Field(0)] + choice');
      BeforeBelow(CONTAINER, Field(0), choice, choice');
      if tag == tag' {
        BeforeBelow(CONTAINER.fields[0].shape, Payload(tag), p, q);
      }
    }
  }

  /** The order of paths is the order of gaps. */
  lemma GapsAreOrdered(order: KeyOrder, g: Gap, h: Gap)
    requires Before(LoggingShape(order), GapPath(g), GapPath(h))
    ensures GapBefore(order, g, h)
  {
    match (g, h)
    case (ConfigMapUnset(c), ConfigMapUnset(d)) =>
      BeforeInContainer(order, c, "Custom", CONFIG_MAP, d, "Custom", CONFIG_MAP);
      NotBeforeItself(CUSTOM, CONFIG_MAP);
    case (ConfigMapUnset(c), LevelUnset(d, m)) =>
      BeforeInContainer(order, c, "Custom", CONFIG_MAP, d, "Automatic", LevelOf(m));
    case (LevelUnset(c, l), ConfigMapUnset(d)) =>
      BeforeInContainer(order, c, "Automatic", LevelOf(l), d, "Custom", CONFIG_MAP);
    case (LevelUnset(c, l), LevelUnset(d, m)) =>
      BeforeInContainer(order, c, "Automatic", LevelOf(l), d, "Automatic", LevelOf(m));
      if c == d {
        LevelsAreOrdered(l, m);
      }
    case _ =>
      if g == h {
        NotBeforeItself(LoggingShape(order), AGENT);
      }
  }

  /**
   * Validating the merged logging layers succeeds exactly if they leave no gap; otherwise the text
   * of the error is the path of the first gap.
   */
  method ValidateLogging(roleGroup: Fragment, role: Fragment, defaults: Fragment, order: KeyOrder)
    returns (text: Option<string>, ghost gap: Gap)
    requires HasShape(roleGroup, LoggingShape(order)) && HasShape(role, LoggingShape(order))
    requires HasShape(defaults, LoggingShape(order))
    ensures text.None? <==> forall g :: !IsGap([roleGroup, role, defaults], g)
    ensures text.Some? ==>
              && IsGap([roleGroup, role, defaults], gap) && text.value == Joined(GapNames(gap))
              && forall g :: IsGap([roleGroup, role, defaults], g) ==> g == gap || GapBefore(order, gap, g)
  {
    ghost var layers := [roleGroup, role, defaults];
    gap := FirstGap(roleGroup, role, defaults, order);
    match ValidateConfig(roleGroup, role, defaults, LoggingShape(order))
    case Ok(_) => text := None;
    case Err(e) =>
      var printed := PrintPath(e.idents);
      ReversedTwice(GapNames(gap));
      text := Some(printed);
  }

  lemma UnsetIsGap(layers: seq<Fragment>, order: KeyOrder, path: seq<Segment>)
    requires layers != [] && AllHaveShape(layers, LoggingShape(order)) && Unset(layers, LoggingShape(order), path)
    ensures path == GapPath(GapAt(path)) && IsGap(layers, GapAt(path))
  {
    RequiredOfLogging(order, path);
    GapIsUnset(layers, order, GapAt(path));
  }

  /** The first unset path leads to the first gap. */
  lemma FirstUnsetIsFirstGap(layers: seq<Fragment>, order: KeyOrder, path: seq<Segment>, g: Gap)
    requires layers != [] && AllHaveShape(layers, LoggingShape(order)) && Unset(layers, LoggingShape(order), path)
    requires forall q :: Unset(layers, LoggingShape(order), q) ==> q == path || Before(LoggingShape(order), path, q)
    requires IsGap(layers, g)
    ensures g == GapAt(path) || GapBefore(order, GapAt(path), g)
  {
    UnsetIsGap(layers, order, path);
    GapIsUnset(layers, order, g);
    GapOfItsPath(g);
    if GapPath(g) != path {
      GapsAreOrdered(order, GapAt(path), g);
    }
  }

  lemma FirstGap(roleGroup: Fragment, role: Fragment, defaults: Fragment, order: KeyOrder) returns (gap: Gap)
    requires HasShape(roleGroup, LoggingShape(order)) && HasShape(role, LoggingShape(order))
    requires HasShape(defaults, LoggingShape(order))
    ensures var (layers, r) := ([roleGroup, role, defaults], ValidateConfig(roleGroup, role, defaults, LoggingShape(order)));
            && (r.Ok? <==> forall g :: !IsGap(layers, g))
            && (r.Err? ==>
                  && r.error == FieldRequired(Reversed(GapNames(gap)))
                  && IsGap(layers, gap) && forall g :: IsGap(layers, g) ==> g == gap || GapBefore(order, gap, g))
  {
    var layers := [roleGroup, role, defaults];
    var path := ValidateConfigReportsFirstUnset(roleGroup, role, defaults, LoggingShape(order));
    gap := GapAt(path);
    if ValidateConfig(roleGroup, role, defaults, LoggingShape(order)).Err? {
      UnsetIsGap(layers, order, path);
      NamesOfGap(order, gap);
      forall g | IsGap(layers, g)
        ensures g == gap || GapBefore(order, gap, g)
      {
        FirstUnsetIsFirstGap(layers, order, path, g);
      }
    } else {
      forall g: Gap
        ensures !IsGap(layers, g)
      {
        GapIsUnset(layers, order, g);
      }
    }
  }
}
