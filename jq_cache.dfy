/** The memo cache of performance/jq_cache.py: `JQCache.load` reads a jq
    filter file once, compiles it when the `jq` package is present (and
    keeps the raw text otherwise), and serves every later load of the same
    path from the cache. The file system, the compiler and the clock are
    parameters. */
module JqCaching {
  import opened Common

  /** A cached program: compiled by `jq.compile`, or the raw text when the
      `jq` package could not be imported. */
  datatype Program<C> = Compiled(code: C) | Source(text: string)

  /** `{'prog': prog, 'loaded': time}`. */
  datatype Entry<C> = Entry(prog: Program<C>, loaded: real)

  /** How a load ends: with the program, or with the exception of `open`
      (no such file) or of `jq.compile` (a syntax error). */
  datatype Loaded<C> = Prog(prog: Program<C>) | ReadFailed | CompileFailed

  /** The environment of one load: the file contents by path (`None`: the
      file cannot be opened), the `jq` compiler if the package is present
      (its result `None`: the text does not compile), and the time. */
  datatype Env<C> = Env(files: string -> Option<string>, jq: Option<string -> Option<C>>, now: real)

  /** `load(path)` as a function of the cache: the new cache and the result. */
  function Load<C>(cache: map<string, Entry<C>>, path: string, env: Env<C>): (map<string, Entry<C>>, Loaded<C>) {
    if path in cache then (cache, Prog(cache[path].prog))
    else
      match env.files(path)
      case None => (cache, ReadFailed)
      case Some(txt) =>
        match env.jq
        case None => (cache[path := Entry(Source(txt), env.now)], Prog(Source(txt)))
        case Some(compile) =>
          match compile(txt)
          case None => (cache, CompileFailed)
          case Some(code) => (cache[path := Entry(Compiled(code), env.now)], Prog(Compiled(code)))
  }

  /** A cached path is served from the cache: the result does not depend on
      the files, the compiler or the time, and the cache is unchanged. */
  lemma HitReadsNothing<C>(cache: map<string, Entry<C>>, path: string, env1: Env<C>, env2: Env<C>)
    requires path in cache
    ensures Load(cache, path, env1) == Load(cache, path, env2) == (cache, Prog(cache[path].prog))
  {
  }

  /** A successful miss stores `{prog, loaded}` under the path and returns
      that same program, compiled when the compiler is present and the raw
      text otherwise; a failed miss stores nothing. */
  lemma MissStoresWhatItReturns<C>(cache: map<string, Entry<C>>, path: string, env: Env<C>)
    requires path !in cache
    ensures var (after, r) := Load(cache, path, env);
      && (r.Prog? <==> env.files(path).Some? && (env.jq.None? || env.jq.value(env.files(path).value).Some?))
      && (r.Prog? ==> after == cache[path := Entry(r.prog, env.now)])
      && (r.Prog? && env.jq.None? ==> r.prog == Source(env.files(path).value))
      && (r.Prog? && env.jq.Some? ==> r.prog == Compiled(env.jq.value(env.files(path).value).value))
      && (!r.Prog? ==> after == cache)
  {
  }

  /** A load changes at most the entry for its own path. */
  lemma LoadTouchesOnlyItsPath<C>(cache: map<string, Entry<C>>, path: string, env: Env<C>)
    ensures var after := Load(cache, path, env).0;
      && after.Keys <= cache.Keys + {path}
      && (forall p :: p in cache ==> p in after && (p != path ==> after[p] == cache[p]))
  {
  }

  /** The caches after a sequence of loads, the i-th in environment `envs[i]`. */
  function LoadAll<C>(cache: map<string, Entry<C>>, paths: seq<string>, envs: seq<Env<C>>): map<string, Entry<C>>
    requires |paths| == |envs|
    decreases |paths|
  {
    if paths == [] then cache else LoadAll(Load(cache, paths[0], envs[0]).0, paths[1..], envs[1..])
  }

  /** Nothing is ever evicted or refreshed: once a path is cached, its entry
      survives every later load whatever the files then contain, so a
      changed file is never seen again. */
  lemma {:induction false} EntriesNeverRefreshed<C>(cache: map<string, Entry<C>>, paths: seq<string>,
                                                   envs: seq<Env<C>>, p: string)
    requires |paths| == |envs|
    requires p in cache
    ensures var after := LoadAll(cache, paths, envs);
      p in after && after[p] == cache[p]
    decreases |paths|
  {
    if paths != [] {
      var next := Load(cache, paths[0], envs[0]).0;
      LoadTouchesOnlyItsPath(cache, paths[0], envs[0]);
      EntriesNeverRefreshed(next, paths[1..], envs[1..], p);
    }
  }

  class JQCache<C> {
    var cache: map<string, Entry<C>>

    constructor ()
      ensures cache == map[]
    {
      cache := map[];
    }

    /** `load(path)`. */
    method LoadPath(path: string, env: Env<C>) returns (r: Loaded<C>)
      modifies this
      ensures (cache, r) == Load(old(cache), path, env)
    {
      if path in cache {
        return Prog(cache[path].prog);
      }
      var txt := env.files(path);
      if txt.None? {
        return ReadFailed;
      }
      var prog: Program<C>;
      if env.jq.None? {
        prog := Source(txt.value);
      } else {
        var code := env.jq.value(txt.value);
        if code.None? {
          return CompileFailed;
        }
        prog := Compiled(code.value);
      }
      cache := cache[path := Entry(prog, env.now)];
      r := Prog(prog);
    }
  }
}
