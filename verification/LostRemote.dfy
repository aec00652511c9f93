/**
 The set of DICE keys to rewind after remote outputs were lost: `LostRemoteRewindGraphBuilder` and
 `rewind_lost_remote_graph` in app/bz_build_api/src/lost_remote.rs.
 */
module LostRemote {
  import opened Collections

  type ActionKey = string
  type Path = string

  datatype BuildArtifact = BuildArtifact(key: ActionKey, path: Path)

  /** `projected` holds the sub-path when the artifact is a projection of its base. */
  datatype Artifact =
    | SourceArtifact(source: Path, projected: Option<Path>)
    | Built(build: BuildArtifact, projected: Option<Path>)

  datatype ArtifactGroup =
    | SingleArtifact(artifact: Artifact)
    | TransitiveSetProjection(projection: string)
    | Promise(id: string)

  /** `s` with `x` at the end, unless it is already there. */
  function Once<T(==)>(s: seq<T>, x: T): (r: seq<T>)
    ensures x in r
    ensures forall y :: y in s ==> y in r
    ensures forall y :: y in r ==> y in s || y == x
    ensures NoDuplicates(s) ==> NoDuplicates(r)
  {
    if x in s then s else
      assert (s + [x])[|s|] == x;
      s + [x]
  }

  datatype RewindGraph = RewindGraph(actionKeys: seq<ActionKey>, artifacts: seq<Artifact>, projected: seq<Artifact>,
                                     projections: seq<string>, inputSets: seq<seq<ArtifactGroup>>)
  {
    /** No key is rewound twice. */
    ghost predicate Distinct() {
      NoDuplicates(actionKeys) && NoDuplicates(artifacts) && NoDuplicates(projected)
      && NoDuplicates(projections) && NoDuplicates(inputSets)
    }

    /** Everything about `a` that has to be recomputed. */
    ghost predicate CoversArtifact(a: Artifact) {
      a in artifacts && (a.projected.Some? ==> a in projected)
    }

    /** The group will be recomputed; a promise stands for no key of its own. */
    ghost predicate Covers(group: ArtifactGroup) {
      match group
      case SingleArtifact(a) => CoversArtifact(a)
      case TransitiveSetProjection(p) => p in projections
      case Promise(_) => true
    }

    /** Nothing has been taken out again. */
    ghost predicate Extends(g: RewindGraph) {
      && (forall k :: k in g.actionKeys ==> k in actionKeys)
      && (forall a :: a in g.artifacts ==> a in artifacts)
      && (forall a :: a in g.projected ==> a in projected)
      && (forall p :: p in g.projections ==> p in projections)
      && (forall i :: i in g.inputSets ==> i in inputSets)
    }

    function WithArtifact(a: Artifact): (r: RewindGraph) {
      var g := this.(artifacts := Once(artifacts, a));
      if a.projected.Some? then g.(projected := Once(projected, a)) else g
    }

    function WithGroup(group: ArtifactGroup): (r: RewindGraph) {
      match group
      case SingleArtifact(a) => WithArtifact(a)
      case TransitiveSetProjection(p) => this.(projections := Once(projections, p))
      case Promise(_) => this
    }

    function WithAction(key: ActionKey): (r: RewindGraph) {
      this.(actionKeys := Once(actionKeys, key))
    }
  }

  const EMPTY_GRAPH := RewindGraph([], [], [], [], [])

  class LostRemoteRewindGraphBuilder {
    var actionKeys: seq<ActionKey>
    var artifacts: seq<Artifact>
    var projectedArtifacts: seq<Artifact>
    var transitiveSetProjections: seq<string>
    var actionInputSets: seq<seq<ArtifactGroup>>

    constructor ()
      ensures Graph() == EMPTY_GRAPH
    {
      actionKeys, artifacts, projectedArtifacts, transitiveSetProjections, actionInputSets := [], [], [], [], [];
    }

    function Graph(): RewindGraph
      reads this
    {
      RewindGraph(actionKeys, artifacts, projectedArtifacts, transitiveSetProjections, actionInputSets)
    }

    method AddActionKey(key: ActionKey)
      modifies this`actionKeys
      ensures Graph() == old(Graph()).WithAction(key)
    {
      if key !in actionKeys {
        actionKeys := actionKeys + [key];
      }
    }

    method AddArtifact(artifact: Artifact)
      modifies this`artifacts, this`projectedArtifacts
      ensures Graph() == old(Graph()).WithArtifact(artifact)
    {
      if artifact !in artifacts {
        artifacts := artifacts + [artifact];
      }
      if artifact.projected.Some? {
        if artifact !in projectedArtifacts {
          projectedArtifacts := projectedArtifacts + [artifact];
        }
      }
    }

    method AddArtifactGroup(group: ArtifactGroup)
      modifies this`artifacts, this`projectedArtifacts, this`transitiveSetProjections
      ensures Graph() == old(Graph()).WithGroup(group)
    {
      match group {
        case SingleArtifact(a) => AddArtifact(a);
        case TransitiveSetProjection(p) =>
          if p !in transitiveSetProjections {
            transitiveSetProjections := transitiveSetProjections + [p];
          }
        case Promise(_) =>
      }
    }

    method AddActionInputSet(inputs: seq<ArtifactGroup>)
      modifies this`actionInputSets
      ensures Graph() == old(Graph()).(inputSets := Once(old(actionInputSets), inputs))
    {
      if inputs !in actionInputSets {
        actionInputSets := actionInputSets + [inputs];
      }
    }
  }

  /** Additions only grow the graph, keep it free of duplicates and cover what they are given. */
  lemma {:induction false} GraphGrows(g: RewindGraph, group: ArtifactGroup, key: ActionKey)
    ensures g.WithGroup(group).Extends(g) && g.WithGroup(group).Covers(group)
    ensures g.WithAction(key).Extends(g) && key in g.WithAction(key).actionKeys
    ensures g.Distinct() ==> g.WithGroup(group).Distinct() && g.WithAction(key).Distinct()
    ensures g.WithGroup(group).actionKeys == g.actionKeys
  {
  }
}
