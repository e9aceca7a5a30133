/** Host directories: `{base}/{stable claim name}/{request}`. */
module Paths {
  import opened Text
  import opened ClaimNames

  /** A directory below the base directory, by its segments. */
  type Path = seq<string>

  const BASE := "/var/run/kubevirt/cdi"

  /** `filepath.Join(base, stable, request)`, by its segments: empty segments disappear. */
  function DirPath(claimName: string, request: string): Path {
    Under(StableName(claimName), request)
  }

  function Under(stable: string, request: string): Path {
    NonEmpty(Split(stable, '/')) + NonEmpty(Split(request, '/'))
  }

  function Render(path: Path): string {
    if path == [] then BASE else BASE + "/" + Join(path, '/')
  }

  ghost predicate IsClean(path: Path) {
    "" !in path && Free(path, '/')
  }

  lemma UnderIsClean(stable: string, request: string)
    ensures IsClean(Under(stable, request))
  {
    SplitIsFree(stable, '/');
    SplitIsFree(request, '/');
    var path := Under(stable, request);
    forall i | 0 <= i < |path| ensures '/' !in path[i] {
      assert path[i] in NonEmpty(Split(stable, '/')) || path[i] in NonEmpty(Split(request, '/'));
    }
  }

  /** Two directories with the same path string are the same directory. */
  lemma RenderInjective(p: Path, q: Path)
    requires IsClean(p) && IsClean(q) && Render(p) == Render(q)
    ensures p == q
  {
    if p != [] && q != [] {
      var n := |BASE| + 1;
      assert Render(p)[n..] == Join(p, '/') && Render(q)[n..] == Join(q, '/');
      SplitJoin(p, '/');
      SplitJoin(q, '/');
    }
  }
}
