/**
 * The per-field decision of squiggly's Jackson property filter.
 *
 * For each field Jackson is about to write, the filter builds the field's
 * path from the generator's output-context chain, asks the node matcher for
 * a verdict, and then writes the field unchanged, writes it with a converted
 * key and value, writes an "excluded" marker, or writes nothing.
 *
 * Jackson's generator, stream context and property writers, and squiggly's
 * context provider, node matcher, function invoker and serializer callbacks
 * are outside this model: the generator is reduced to its context chain and
 * its can-omit flag, a writer to its kind, the collaborators to functions
 * held in a `Squiggly` record, and what gets written to an `Action`.
 */
module PropertyFilter {
  import opened Wrappers

  // ---------------------------------------------------------------------------
  // Values, frames and paths
  // ---------------------------------------------------------------------------

  /** A Java object reference as the filter sees it: `null`, a string, or some other object. */
  datatype Value = Null | Str(s: string) | Obj(id: nat)

  /**
   * One frame of Jackson's output-context chain: the name of the field being
   * written in it (absent in array and root frames) and the object it writes.
   */
  datatype Frame = Frame(name: Option<string>, value: Value)

  /** The generator, reduced to its output-context chain (innermost frame first; empty when there is none) and its can-omit flag. */
  datatype Generator = Generator(context: seq<Frame>, canOmitFields: bool)

  /** One step of a path: a field name and the object that owns the field. */
  datatype PathElement = PathElement(name: string, bean: Value)

  type Path = seq<PathElement>

  /** An ancestor frame takes part in the path only when it has both a name and a value. */
  predicate Named(fr: Frame) {
    fr.name.Some? && !fr.value.Null?
  }

  function ElementOf(fr: Frame): (e: PathElement)
    requires Named(fr)
  {
    PathElement(fr.name.value, fr.value)
  }

  /** The path elements of the ancestor frames `outer` (innermost first), root first. */
  function Ancestors(outer: seq<Frame>): (p: Path) {
    if outer == [] then []
    else Ancestors(outer[1..]) + (if Named(outer[0]) then [ElementOf(outer[0])] else [])
  }

  /**
   * The path `getPath` builds for the field `writerName`: the element of
   * every named ancestor, root first, then the field itself with the
   * innermost frame's current value.
   */
  function PathOf(writerName: string, chain: seq<Frame>): (p: Path)
    ensures chain == [] ==> p == []
    ensures chain != [] ==> |p| == 1 + NamedCount(chain[1..])
    ensures chain != [] ==> p[|p| - 1] == PathElement(writerName, chain[0].value)
  {
    if chain == [] then []
    else
      AncestorsCount(chain[1..]);
      Ancestors(chain[1..]) + [PathElement(writerName, chain[0].value)]
  }

  lemma {:induction false} AncestorsCount(outer: seq<Frame>)
    ensures |Ancestors(outer)| == NamedCount(outer)
  {
    if outer != [] {
      AncestorsCount(outer[1..]);
    }
  }

  // Independent reading of the ancestor part: keep the named frames walking
  // outwards, then reverse.

  function NamedElements(outer: seq<Frame>): (p: Path) {
    if outer == [] then []
    else (if Named(outer[0]) then [ElementOf(outer[0])] else []) + NamedElements(outer[1..])
  }

  function NamedCount(outer: seq<Frame>): (n: nat) {
    if outer == [] then 0 else (if Named(outer[0]) then 1 else 0) + NamedCount(outer[1..])
  }

  function Reverse(s: Path): (r: Path)
    ensures |r| == |s|
  {
    if s == [] then [] else Reverse(s[1..]) + [s[0]]
  }

  lemma {:induction false} AncestorsAreReversedNamed(outer: seq<Frame>)
    ensures Ancestors(outer) == Reverse(NamedElements(outer))
  {
    if outer != [] {
      AncestorsAreReversedNamed(outer[1..]);
      var rest := NamedElements(outer[1..]);
      if Named(outer[0]) {
        var e := ElementOf(outer[0]);
        assert ([e] + rest)[1..] == rest;
      } else {
        assert NamedElements(outer) == rest;
      }
    }
  }

  lemma {:induction false} NamedElementsCount(outer: seq<Frame>)
    ensures |NamedElements(outer)| == NamedCount(outer)
  {
    if outer != [] {
      NamedElementsCount(outer[1..]);
    }
  }

  lemma {:induction false} NamedElementsFromNamedFrames(outer: seq<Frame>, e: PathElement)
    requires e in NamedElements(outer)
    ensures exists j :: 0 <= j < |outer| && Named(outer[j]) && e == ElementOf(outer[j])
  {
    if outer != [] {
      if Named(outer[0]) && e == ElementOf(outer[0]) {
        assert Named(outer[0]) && e == ElementOf(outer[0]);
      } else {
        NamedElementsFromNamedFrames(outer[1..], e);
        var j :| 0 <= j < |outer[1..]| && Named(outer[1..][j]) && e == ElementOf(outer[1..][j]);
        assert outer[j + 1] == outer[1..][j];
      }
    }
  }

  lemma {:induction false} ReverseMembers(s: Path, e: PathElement)
    ensures e in Reverse(s) <==> e in s
  {
    if s != [] {
      ReverseMembers(s[1..], e);
      assert s == [s[0]] + s[1..];
    }
  }

  /**
   * The shape of a path: non-empty, ending in the field element, one element
   * per named ancestor before it, root first, and each of those elements the
   * name and value of some named ancestor frame.
   */
  lemma PathShape(writerName: string, chain: seq<Frame>)
    requires chain != []
    ensures var p := PathOf(writerName, chain);
      && |p| == 1 + NamedCount(chain[1..])
      && p[|p| - 1] == PathElement(writerName, chain[0].value)
      && p[..|p| - 1] == Reverse(NamedElements(chain[1..]))
    ensures forall i :: 0 <= i < |PathOf(writerName, chain)| - 1 ==>
      exists j :: 1 <= j < |chain| && Named(chain[j]) && PathOf(writerName, chain)[i] == ElementOf(chain[j])
  {
    var outer := chain[1..];
    var p := PathOf(writerName, chain);
    AncestorsAreReversedNamed(outer);
    NamedElementsCount(outer);
    assert p[..|p| - 1] == Ancestors(outer);
    forall i | 0 <= i < |p| - 1
      ensures exists j :: 1 <= j < |chain| && Named(chain[j]) && p[i] == ElementOf(chain[j])
    {
      var e := p[i];
      assert e in Ancestors(outer);
      ReverseMembers(NamedElements(outer), e);
      NamedElementsFromNamedFrames(outer, e);
      var j :| 0 <= j < |outer| && Named(outer[j]) && e == ElementOf(outer[j]);
      assert chain[j + 1] == outer[j];
    }
  }

  lemma {:induction false} AncestorsSnoc(outer: seq<Frame>, fr: Frame)
    ensures Ancestors(outer + [fr]) == (if Named(fr) then [ElementOf(fr)] else []) + Ancestors(outer)
  {
    if outer == [] {
      assert ([] + [fr])[1..] == [];
    } else {
      AncestorsSnoc(outer[1..], fr);
      assert (outer + [fr])[1..] == outer[1..] + [fr];
    }
  }

  /**
   * `getPath`: starting at the innermost frame, add the field element, then
   * walk the parents outwards and put each named one at the front.
   */
  method GetPath(writerName: string, chain: seq<Frame>) returns (path: Path)
    ensures path == PathOf(writerName, chain)
  {
    var elements: Path := [];
    var sc := 0;  // the frame `chain[sc]`, or `null` once `sc == |chain|`
    if sc < |chain| {
      elements := elements + [PathElement(writerName, chain[sc].value)];
      sc := sc + 1;
    }
    while sc < |chain|
      invariant chain == [] ==> sc == 0 && elements == []
      invariant chain != [] ==> 1 <= sc <= |chain|
      invariant chain != [] ==> elements == Ancestors(chain[1..sc]) + [PathElement(writerName, chain[0].value)]
    {
      AncestorsSnoc(chain[1..sc], chain[sc]);
      assert chain[1..sc + 1] == chain[1..sc] + [chain[sc]];
      if Named(chain[sc]) {
        elements := [ElementOf(chain[sc])] + elements;
      }
      sc := sc + 1;
    }
    assert chain != [] ==> chain[1..sc] == chain[1..];
    path := elements;
  }

  // ---------------------------------------------------------------------------
  // Matching
  // ---------------------------------------------------------------------------

  /** A key or value function call carried by a match; only the invoker looks inside. */
  datatype FunctionNode = FunctionNode(name: string)

  /** What the node matcher answers: `null`, one of its two sentinels, or a node with its key and value functions. */
  datatype MatchResult = NullMatch | AlwaysMatch | NeverMatch | Node(keyFunctions: seq<FunctionNode>, valueFunctions: seq<FunctionNode>)
  {
    /** Non-null and not NEVER_MATCH: the field is written in some form. */
    predicate Selected() {
      !NullMatch? && !NeverMatch?
    }

    /** The key functions; ALWAYS_MATCH carries none. */
    function KeyFunctions(): (fns: seq<FunctionNode>) {
      if Node? then keyFunctions else []
    }

    /** The value functions; ALWAYS_MATCH carries none. */
    function ValueFunctions(): (fns: seq<FunctionNode>) {
      if Node? then valueFunctions else []
    }

    predicate HasFunctions() {
      KeyFunctions() != [] || ValueFunctions() != []
    }
  }

  /** The context the context provider builds for a root object. */
  datatype Context = Context(id: nat)

  /**
   * The collaborators the filter reaches through its `Squiggly` instance:
   * whether filtering is enabled, the context provider, the node matcher,
   * the function invoker (target, pojo, functions), and Java's `"" + x`.
   */
  datatype Squiggly = Squiggly(
    filteringEnabled: bool,
    contextFor: Value -> Context,
    matcher: (Path, Context) -> MatchResult,
    invoke: (Value, Value, seq<FunctionNode>) -> Value,
    str: Value -> string)

  /** A property writer: a bean property with its getter, a map entry, or any other kind. */
  datatype Writer = Bean(name: string, get: Value -> Value) | MapProp(name: string) | Other(name: string)

  datatype FilterError = NullArgument | UnsupportedOperation(message: string)

  datatype SquigglyPropertyFilter = SquigglyPropertyFilter(squiggly: Squiggly)

  /** The constructor refuses a missing `Squiggly` and keeps the one it is given. */
  function NewFilter(squiggly: Option<Squiggly>): (r: Result<SquigglyPropertyFilter, FilterError>)
    ensures r.Success? <==> squiggly.Some?
    ensures r.Success? ==> r.value.squiggly == squiggly.value
    ensures r.Failure? ==> r.error == NullArgument
  {
    match squiggly
    case None => Failure(NullArgument)
    case Some(sq) => Success(SquigglyPropertyFilter(sq))
  }

  const CannotIncludeMessage := "Cannot call include without JsonGenerator"

  /** `include(BeanPropertyWriter)`: always an unsupported operation, since the generator is needed. */
  function IncludeBeanWriter(filter: SquigglyPropertyFilter, writer: Writer): (r: Result<bool, FilterError>)
    requires writer.Bean?
    ensures r.Failure? && r.error.UnsupportedOperation?
    ensures r.error.message == CannotIncludeMessage
  {
    Failure(UnsupportedOperation(CannotIncludeMessage))
  }

  /** `include(PropertyWriter)`: always an unsupported operation, for every kind of writer. */
  function IncludeWriter(filter: SquigglyPropertyFilter, writer: Writer): (r: Result<bool, FilterError>)
    ensures r.Failure? && r.error.UnsupportedOperation?
    ensures r.error.message == CannotIncludeMessage
  {
    Failure(UnsupportedOperation(CannotIncludeMessage))
  }

  /**
   * `match`: with no output context, or with filtering disabled, ALWAYS_MATCH
   * (in that order); otherwise the matcher's verdict on the field's path, in
   * the context built for the path's first (root-most) element.
   */
  function Match(filter: SquigglyPropertyFilter, writer: Writer, gen: Generator): (m: MatchResult)
    ensures gen.context == [] ==> m == AlwaysMatch
    ensures !filter.squiggly.filteringEnabled ==> m == AlwaysMatch
    ensures gen.context != [] && filter.squiggly.filteringEnabled ==>
      var path := PathOf(writer.name, gen.context);
      |path| > 0 && m == filter.squiggly.matcher(path, filter.squiggly.contextFor(path[0].bean))
  {
    var sq := filter.squiggly;
    if gen.context == [] then AlwaysMatch
    else if !sq.filteringEnabled then AlwaysMatch
    else
      var path := PathOf(writer.name, gen.context);
      sq.matcher(path, sq.contextFor(path[0].bean))
  }

  /** What `serializeAsField` has the serializer write for the field. */
  datatype Action =
    | IncludeField                                 // serializeAsIncludedField
    | ConvertField(name: string, value: Value)     // serializeAsConvertedField
    | ExcludeField                                 // serializeAsExcludedField
    | Omit                                         // nothing is written

  /**
   * `serializeAsField`: a selected match without functions, or with
   * functions on a writer that is neither a bean property nor a map
   * property, writes the field unchanged; a selected match with functions
   * on a bean or map property writes it converted; a null or NEVER_MATCH
   * verdict writes the excluded marker exactly when the generator cannot
   * omit fields.
   */
  function SerializeAsField(filter: SquigglyPropertyFilter, pojo: Value, gen: Generator, writer: Writer): (a: Action)
    ensures var m := Match(filter, writer, gen);
      && (a == IncludeField <==> m.Selected() && (!m.HasFunctions() || writer.Other?))
      && (a.ConvertField? <==> m.Selected() && m.HasFunctions() && !writer.Other?)
      && (a == ExcludeField <==> !m.Selected() && !gen.canOmitFields)
      && (a == Omit <==> !m.Selected() && gen.canOmitFields)
    ensures var m := Match(filter, writer, gen); var sq := filter.squiggly;
      a.ConvertField? ==>
        && a.name == sq.str(sq.invoke(Str(writer.name), pojo, m.KeyFunctions()))
        && (writer.Bean? ==> a.value == sq.invoke(writer.get(pojo), pojo, m.ValueFunctions()))
        && (writer.MapProp? ==> a.value == sq.invoke(pojo, pojo, m.ValueFunctions()))
  {
    var m := Match(filter, writer, gen);
    var sq := filter.squiggly;
    if m.Selected() then
      if !m.HasFunctions() then IncludeField
      else
        match writer
        case Bean(name, get) =>
          ConvertField(sq.str(sq.invoke(Str(name), pojo, m.KeyFunctions())), sq.invoke(get(pojo), pojo, m.ValueFunctions()))
        case MapProp(name) =>
          ConvertField(sq.str(sq.invoke(Str(name), pojo, m.KeyFunctions())), sq.invoke(pojo, pojo, m.ValueFunctions()))
        case Other(_) => IncludeField
    else if !gen.canOmitFields then ExcludeField
    else Omit
  }

  // ---------------------------------------------------------------------------
  // Properties of the decision
  // ---------------------------------------------------------------------------

  /**
   * A root field (no output context) or any field while filtering is
   * disabled is written unchanged, whatever the matcher, the context
   * provider and the invoker would say.
   */
  lemma UnfilteredFieldIncluded(filter: SquigglyPropertyFilter, pojo: Value, gen: Generator, writer: Writer)
    requires gen.context == [] || !filter.squiggly.filteringEnabled
    ensures SerializeAsField(filter, pojo, gen, writer) == IncludeField
  {
  }

  /**
   * The context check comes first: with no output context, the decision
   * does not depend on the `Squiggly` instance at all, not even on whether
   * filtering is enabled.
   */
  lemma RootDecisionIndependentOfSquiggly(f1: SquigglyPropertyFilter, f2: SquigglyPropertyFilter, pojo: Value, gen: Generator, writer: Writer)
    requires gen.context == []
    ensures Match(f1, writer, gen) == Match(f2, writer, gen) == AlwaysMatch
    ensures SerializeAsField(f1, pojo, gen, writer) == SerializeAsField(f2, pojo, gen, writer)
  {
  }
}
