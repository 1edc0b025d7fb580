/**
 * The component loader: a Twig filesystem loader that also resolves
 * `#name` to the template file of the active theme's component `name`. The
 * component map is filled lazily from a directory scan, optionally through a
 * cache keyed by the scanned directory.
 *
 * The directory scan and the cache backend are inputs: `scans` says which
 * `.twig` files a scan of each directory lists, in the order it lists them,
 * and `cache` holds what the cache backend stores.
 */
module ComponentLoader {
  import opened Wrappers

  /** A file the scan lists: its name without extension and its URI. */
  datatype ComponentFile = ComponentFile(name: string, uri: string)

  /** The component map: absent (PHP null) until a scan finds a file. */
  type Components = Option<map<string, string>>

  /** The directory the loader scans, below the active theme's path. */
  function ComponentsDir(themePath: string): string {
    themePath + "/components"
  }

  /**
   * The map after `$components[$file->name] = $file->uri` for each file in
   * turn, starting from `start`: assigning into null creates the array.
   */
  function Scan(start: Components, files: seq<ComponentFile>): (r: Components)
    ensures files != [] ==> r.Some?
    ensures r.Some? ==> forall i :: 0 <= i < |files| ==> files[i].name in r.value
    ensures start.Some? ==> r.Some? && start.value.Keys <= r.value.Keys
    decreases |files|
  {
    if files == [] then start
    else
      var last := files[|files| - 1];
      Some(Scan(start, files[..|files| - 1]).GetOr(map[])[last.name := last.uri])
  }

  /**
   * The lookup once the map is known: only `#`-prefixed names are resolved,
   * to the URI of the component named by the rest; anything else is FALSE.
   */
  function Lookup(components: Components, name: string): (r: Option<string>)
    ensures r.Some? ==> components.Some? && r.value in components.value.Values
    ensures |name| == 0 || name[0] != '#' ==> r.None?
  {
    if |name| > 0 && name[0] == '#' && components.Some? && name[1..] in components.value
    then Some(components.value[name[1..]])
    else None
  }

  /** Twig_Loader_Filesystem with the component lookup. */
  class Loader {
    /** Whether the Twig configuration enables the cache. */
    const cacheEnabled: bool
    /** The path of the active theme. */
    const themePath: string
    /** The files a scan of each directory lists; a directory not in the map lists none. */
    const scans: map<string, seq<ComponentFile>>
    /** The component map, PHP null until the first scan that finds a file. */
    var components: Components
    /** The cache backend's entries: a scanned directory and the map stored for it. */
    var cache: map<string, Components>

    constructor(cacheEnabled: bool, themePath: string, scans: map<string, seq<ComponentFile>>,
                cache: map<string, Components>)
      ensures this.cacheEnabled == cacheEnabled && this.themePath == themePath && this.scans == scans
      ensures this.cache == cache && components == None
    {
      this.cacheEnabled := cacheEnabled;
      this.themePath := themePath;
      this.scans := scans;
      this.cache := cache;
      components := None;
    }

    function FilesIn(path: string): seq<ComponentFile> {
      if path in scans then scans[path] else []
    }

    /**
     * `listComponents`: a cache hit returns the cached map and changes
     * nothing; otherwise the scan is written into the component field, stored
     * in the cache when caching is on, and returned.
     */
    method ListComponents(path: string) returns (r: Components)
      modifies this
      ensures cacheEnabled && path in old(cache) ==>
        r == old(cache)[path] && components == old(components) && cache == old(cache)
      ensures !(cacheEnabled && path in old(cache)) ==>
        components == Scan(old(components), FilesIn(path)) && r == components &&
        cache == if cacheEnabled then old(cache)[path := components] else old(cache)
    {
      if cacheEnabled && path in cache {
        return cache[path];
      }
      var files := FilesIn(path);
      for i := 0 to |files|
        invariant cache == old(cache)
        invariant components == Scan(old(components), files[..i])
      {
        assert files[..i + 1][..i] == files[..i];
        components := Some(components.GetOr(map[])[files[i].name := files[i].uri]);
      }
      assert files[..|files|] == files;
      if cacheEnabled {
        cache := cache[path := components];
      }
      return components;
    }

    /**
     * `findTemplate`: fills the component map when it is still null, then
     * resolves the name against it.
     */
    method FindTemplate(name: string) returns (r: Option<string>)
      modifies this
      ensures old(components).Some? ==> components == old(components) && cache == old(cache)
      ensures old(components).None? && cacheEnabled && ComponentsDir(themePath) in old(cache) ==>
        components == old(cache)[ComponentsDir(themePath)] && cache == old(cache)
      ensures old(components).None? && !(cacheEnabled && ComponentsDir(themePath) in old(cache)) ==>
        components == Scan(None, FilesIn(ComponentsDir(themePath))) &&
        cache == if cacheEnabled then old(cache)[ComponentsDir(themePath) := components] else old(cache)
      ensures r == Lookup(components, name)
    {
      if components.None? {
        components := ListComponents(ComponentsDir(themePath));
      }
      if |name| > 0 && name[0] == '#' {
        var component := name[1..];
        if components.Some? && component in components.value {
          return Some(components.value[component]);
        }
      }
      return None;
    }
  }

  // ---------------------------------------------------------------------------
  // Properties
  // ---------------------------------------------------------------------------

  /** A name that does not start with `#` is never a component. */
  lemma NotComponentName(components: Components, name: string)
    requires |name| == 0 || name[0] != '#'
    ensures Lookup(components, name) == None
  {
  }

  /** `#x` for a known component `x` is that component's URI. */
  lemma KnownComponent(m: map<string, string>, x: string)
    requires x in m
    ensures Lookup(Some(m), "#" + x) == Some(m[x])
  {
    assert ("#" + x)[1..] == x;
  }

  /** `#x` for an unknown component `x` is FALSE. */
  lemma UnknownComponent(components: Components, x: string)
    requires components.None? || x !in components.value
    ensures Lookup(components, "#" + x) == None
  {
    assert ("#" + x)[1..] == x;
  }

  /** A scan knows a name exactly when the start map or one of the files has it. */
  lemma {:induction false} ScanNames(start: Components, files: seq<ComponentFile>, x: string)
    ensures Scan(start, files).Some? <==> start.Some? || files != []
    ensures Scan(start, files).Some? ==>
      (x in Scan(start, files).value <==>
        (start.Some? && x in start.value) || exists i :: 0 <= i < |files| && files[i].name == x)
    decreases |files|
  {
    if files != [] {
      var init := files[..|files| - 1];
      ScanNames(start, init, x);
      if files[|files| - 1].name != x && (exists i :: 0 <= i < |files| && files[i].name == x) {
        var i :| 0 <= i < |files| && files[i].name == x;
        assert init[i] == files[i];
      }
    }
  }

  /** A later file with the same name overwrites an earlier one: the last file of a name wins. */
  lemma {:induction false} ScanLastWins(start: Components, files: seq<ComponentFile>, i: nat)
    requires i < |files|
    requires forall j :: i < j < |files| ==> files[j].name != files[i].name
    ensures Scan(start, files).Some?
    ensures files[i].name in Scan(start, files).value
    ensures Scan(start, files).value[files[i].name] == files[i].uri
    decreases |files|
  {
    if i < |files| - 1 {
      ScanLastWins(start, files[..|files| - 1], i);
    }
  }

  /** A name no file has keeps the start map's entry. */
  lemma {:induction false} ScanKeeps(m: map<string, string>, files: seq<ComponentFile>, x: string)
    requires x in m
    requires forall j :: 0 <= j < |files| ==> files[j].name != x
    ensures Scan(Some(m), files).Some? && x in Scan(Some(m), files).value
    ensures Scan(Some(m), files).value[x] == m[x]
    decreases |files|
  {
    if files != [] {
      ScanKeeps(m, files[..|files| - 1], x);
    }
  }

  /**
   * A fresh loader resolves `#x` to the URI of the last listed file named
   * `x`, since the scan starts from null.
   */
  lemma FreshLookupFindsLastFile(files: seq<ComponentFile>, i: nat)
    requires i < |files|
    requires forall j :: i < j < |files| ==> files[j].name != files[i].name
    ensures Lookup(Scan(None, files), "#" + files[i].name) == Some(files[i].uri)
  {
    ScanLastWins(None, files, i);
    KnownComponent(Scan(None, files).value, files[i].name);
  }

  /** A fresh loader resolves `#x` to FALSE when no listed file is named `x`. */
  lemma FreshLookupMisses(files: seq<ComponentFile>, x: string)
    requires forall j :: 0 <= j < |files| ==> files[j].name != x
    ensures Lookup(Scan(None, files), "#" + x) == None
  {
    ScanNames(None, files, x);
    UnknownComponent(Scan(None, files), x);
  }
}
