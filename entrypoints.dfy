/** The build script that generates one re-export file per package
    entrypoint: for every configured key it writes `key.cjs`, `key.js` and
    `key.d.ts` pointing into `dist/`, records the generated names in the
    package manifest and in `.gitignore`, and lists the entrypoint sources
    for the documentation generator; its `pre` command deletes the same
    files again. Records are insertion-ordered lists of key/value pairs;
    the workspace is a map from paths to contents, with the two JSON
    manifests held as parsed values. */
module Entrypoints {
  import opened Wrappers
  import opened Text
  import opened JsValue

  /** An insertion-ordered record of strings, as `Object.entries` lists it. */
  type Entries = seq<(string, string)>

  function KeySet(d: Entries): set<string>
    decreases |d|
  {
    if |d| == 0 then {} else KeySet(d[..|d| - 1]) + {d[|d| - 1].0}
  }

  /** No key occurs twice. */
  predicate DistinctKeys(d: Entries)
    decreases |d|
  {
    |d| == 0 || (DistinctKeys(d[..|d| - 1]) && d[|d| - 1].0 !in KeySet(d[..|d| - 1]))
  }

  /** A plain object of strings: its keys are distinct. */
  type Table = d: Entries | DistinctKeys(d) witness []

  /** The script's own entrypoint table, which is empty. */
  const ConfiguredEntrypoints: Table := []
  const IndexEntry := ("index", "index")
  const TsconfigPath := "./tsconfig.json"
  const PackagePath := "./package.json"
  const GitignorePath := "./.gitignore"

  /** `Object.keys`. */
  function Keys(d: Entries): (r: seq<string>)
    ensures |r| == |d| && forall i :: 0 <= i < |d| ==> r[i] == d[i].0
  {
    seq(|d|, i requires 0 <= i < |d| => d[i].0)
  }

  lemma {:induction false} KeySetAppend(a: Entries, b: Entries)
    ensures KeySet(a + b) == KeySet(a) + KeySet(b)
    decreases |b|
  {
    if |b| == 0 {
      assert a + b == a;
    } else {
      assert (a + b)[..|a + b| - 1] == a + b[..|b| - 1];
      KeySetAppend(a, b[..|b| - 1]);
    }
  }

  /** Every key of a record is in its key set. */
  lemma {:induction false} KeyInKeySet(d: Entries, i: nat)
    requires i < |d|
    ensures d[i].0 in KeySet(d)
    decreases |d|
  {
    if i < |d| - 1 {
      KeyInKeySet(d[..|d| - 1], i);
    }
  }

  /** Adding a pair at the end adds its key, and keeps the keys distinct
      exactly when the key is new. */
  lemma SnocFacts(d: Entries, p: (string, string))
    ensures (d + [p])[..|d|] == d
    ensures KeySet(d + [p]) == KeySet(d) + {p.0}
    ensures DistinctKeys(d + [p]) <==> DistinctKeys(d) && p.0 !in KeySet(d)
  {
    assert (d + [p])[..|d|] == d;
  }

  /** The pairs of `d` assigned in turn onto the object `m`. */
  function Apply(m: map<string, string>, d: Entries): (r: map<string, string>)
    ensures r.Keys == m.Keys + KeySet(d)
    decreases |d|
  {
    if |d| == 0 then m else Apply(m, d[..|d| - 1])[d[|d| - 1].0 := d[|d| - 1].1]
  }

  /** The object a record denotes: a later pair overrides an earlier one
      with the same key. */
  function AsMap(d: Entries): map<string, string> {
    Apply(map[], d)
  }

  lemma {:induction false} ApplyAppend(m: map<string, string>, a: Entries, b: Entries)
    ensures Apply(m, a + b) == Apply(Apply(m, a), b)
    decreases |b|
  {
    if |b| == 0 {
      assert a + b == a;
    } else {
      assert (a + b)[..|a + b| - 1] == a + b[..|b| - 1];
      ApplyAppend(m, a, b[..|b| - 1]);
    }
  }

  // ---------------------------------------------------------------------
  // Object.fromEntries
  // ---------------------------------------------------------------------

  /** Replaces the value of the key `k`, keeping its position. */
  function Replace(d: Entries, k: string, v: string): (r: Entries)
    ensures |r| == |d| && Keys(r) == Keys(d) && KeySet(r) == KeySet(d)
    decreases |d|
  {
    if |d| == 0 then []
    else if d[|d| - 1].0 == k then d[..|d| - 1] + [(k, v)]
    else
      var r := Replace(d[..|d| - 1], k, v) + [d[|d| - 1]];
      assert r[..|r| - 1] == Replace(d[..|d| - 1], k, v);
      assert Keys(r) == Keys(d) by {
        assert Keys(r)[..|r| - 1] == Keys(Replace(d[..|d| - 1], k, v));
      }
      r
  }

  /** `obj[k] = v` on a record: an existing key keeps its position and
      takes the new value; a new key goes last. */
  function Assign(d: Entries, k: string, v: string): (r: Entries)
    ensures k !in KeySet(d) ==> r == d + [(k, v)]
    ensures k in KeySet(d) ==> |r| == |d| && Keys(r) == Keys(d)
    ensures KeySet(r) == KeySet(d) + {k}
  {
    if k in KeySet(d) then Replace(d, k, v)
    else
      assert (d + [(k, v)])[..|d|] == d;
      d + [(k, v)]
  }

  /** On a record with distinct keys, replacing keeps the keys distinct and
      updates the denoted object at `k`. */
  lemma {:induction false} ReplaceDistinct(d: Entries, k: string, v: string)
    requires DistinctKeys(d) && k in KeySet(d)
    ensures DistinctKeys(Replace(d, k, v))
    ensures AsMap(Replace(d, k, v)) == AsMap(d)[k := v]
    decreases |d|
  {
    var init, last := d[..|d| - 1], d[|d| - 1];
    var r := Replace(d, k, v);
    if last.0 == k {
      assert r[..|r| - 1] == init;
    } else {
      assert k in KeySet(init);
      var rest := Replace(init, k, v);
      ReplaceDistinct(init, k, v);
      assert r == rest + [last];
      SnocFacts(rest, last);
      ReplaceLater(init, rest, last, k, v);
    }
  }

  /** A pair after the replaced key commutes with the replacement. */
  lemma ReplaceLater(init: Entries, rest: Entries, last: (string, string), k: string, v: string)
    requires last.0 != k && AsMap(rest) == AsMap(init)[k := v]
    ensures AsMap(rest + [last]) == AsMap(init + [last])[k := v]
  {
    assert (rest + [last])[..|rest|] == rest;
    assert (init + [last])[..|init|] == init;
    assert AsMap(rest + [last]) == AsMap(rest)[last.0 := last.1];
    assert AsMap(init + [last]) == AsMap(init)[last.0 := last.1];
  }

  /** `Object.fromEntries(pairs)`: each pair assigned in turn. */
  function FromEntries(ps: Entries): Entries
    decreases |ps|
  {
    if |ps| == 0 then []
    else Assign(FromEntries(ps[..|ps| - 1]), ps[|ps| - 1].0, ps[|ps| - 1].1)
  }

  /** The result has distinct keys, the same keys as the pairs, and
      denotes the same object: for a repeated key the last value wins. */
  lemma {:induction false} FromEntriesMeaning(ps: Entries)
    ensures DistinctKeys(FromEntries(ps))
    ensures KeySet(FromEntries(ps)) == KeySet(ps)
    ensures AsMap(FromEntries(ps)) == AsMap(ps)
    decreases |ps|
  {
    if |ps| > 0 {
      var init, last := ps[..|ps| - 1], ps[|ps| - 1];
      var prev := FromEntries(init);
      FromEntriesMeaning(init);
      if last.0 in KeySet(prev) {
        ReplaceDistinct(prev, last.0, last.1);
      } else {
        assert (prev + [last])[..|prev|] == prev;
      }
    }
  }

  /** Pairs whose keys are already distinct come back unchanged. */
  lemma {:induction false} FromEntriesOfDistinct(ps: Entries)
    requires DistinctKeys(ps)
    ensures FromEntries(ps) == ps
    decreases |ps|
  {
    if |ps| > 0 {
      FromEntriesOfDistinct(ps[..|ps| - 1]);
      assert ps == ps[..|ps| - 1] + [ps[|ps| - 1]];
    }
  }

  // ---------------------------------------------------------------------
  // generateFiles
  // ---------------------------------------------------------------------

  /** The way from an entrypoint file back to the package root: one
      `"../"` per `/` in the key, or `"./"` for a key without one. */
  function Prefix(key: string): (r: string)
    ensures r == if '/' in key then Repeat("../", Count(key, '/')) else "./"
  {
    SplitLength(key, '/');
    var parents := |Split(key, '/')| - 1;
    var up := Repeat("../", parents);
    if up == "" then "./" else up
  }

  /** The file-name suffixes of the three generated files. */
  function Suffix(s: nat): string
    requires s < 3
  {
    if s == 0 then ".cjs" else if s == 1 then ".js" else ".d.ts"
  }

  /** The three files of one entry: a CommonJS file requiring the compiled
      `.cjs` module, and an ES module and a declaration file with the same
      re-export of the compiled `.js` module. */
  function EntryFiles(key: string, value: string): (r: Entries)
    ensures |r| == 3
    ensures forall s :: 0 <= s < 3 ==> r[s].0 == key + Suffix(s)
    ensures r[0].1 == "module.exports = require('" + Prefix(key) + "dist/" + value + ".cjs');"
    ensures r[1].1 == r[2].1 == "export * from '" + (Prefix(key) + "dist/" + value + ".js") + "'"
  {
    var relativePath := Prefix(key);
    var compiledPath := relativePath + "dist/" + value + ".js";
    [ (key + ".cjs", "module.exports = require('" + relativePath + "dist/" + value + ".cjs');"),
      (key + ".js", "export * from '" + compiledPath + "'"),
      (key + ".d.ts", "export * from '" + compiledPath + "'") ]
  }

  /** The `flatMap` of the entries to their files. */
  function FlatFiles(entries: Entries): (r: Entries)
    ensures |r| == 3 * |entries|
    decreases |entries|
  {
    if |entries| == 0 then []
    else
      var last := entries[|entries| - 1];
      FlatFiles(entries[..|entries| - 1]) + EntryFiles(last.0, last.1)
  }

  lemma SameSuffix(k: string, k2: string, s: string)
    ensures k + s == k2 + s ==> k == k2
  {
    if k + s == k2 + s {
      assert k == (k + s)[..|k|];
      assert k2 == (k2 + s)[..|k2|];
    }
  }

  /** Names with different suffixes never coincide: `.cjs` and `.js` differ
      in their third-last character, both differ from `.d.ts` in their
      second-last one. */
  lemma SuffixesDiffer(k: string, k2: string)
    ensures k + ".cjs" != k2 + ".js"
    ensures k + ".cjs" != k2 + ".d.ts"
    ensures k + ".js" != k2 + ".d.ts"
  {
    var a, b, c := k + ".cjs", k2 + ".js", k2 + ".d.ts";
    assert a[|a| - 3] != b[|b| - 3];
    assert a[|a| - 2] != c[|c| - 2];
    var a2 := k + ".js";
    assert a2[|a2| - 2] != c[|c| - 2];
  }

  /** Two generated names coincide only for the same key and suffix. */
  lemma NamesDiffer(k: string, s: nat, k2: string, t: nat)
    requires s < 3 && t < 3
    requires k != k2 || s != t
    ensures k + Suffix(s) != k2 + Suffix(t)
  {
    if s == t {
      SameSuffix(k, k2, Suffix(s));
    } else {
      SuffixesDiffer(k, k2);
      SuffixesDiffer(k2, k);
    }
  }

  /** The three names of an entry, all different. */
  lemma EntryFilesKeys(key: string, value: string)
    ensures KeySet(EntryFiles(key, value)) == {key + Suffix(0), key + Suffix(1), key + Suffix(2)}
    ensures DistinctKeys(EntryFiles(key, value))
  {
    var files := EntryFiles(key, value);
    NamesDiffer(key, 0, key, 1);
    NamesDiffer(key, 0, key, 2);
    NamesDiffer(key, 1, key, 2);
    SnocFacts([], files[0]);
    SnocFacts([files[0]], files[1]);
    SnocFacts([files[0], files[1]], files[2]);
    assert [] + [files[0]] == [files[0]];
    assert [files[0]] + [files[1]] == [files[0], files[1]];
    assert [files[0], files[1]] + [files[2]] == files;
  }

  /** A key that is not among the entries names none of their files. */
  lemma {:induction false} NotGenerated(entries: Entries, key: string, s: nat)
    requires s < 3 && key !in KeySet(entries)
    ensures key + Suffix(s) !in KeySet(FlatFiles(entries))
    decreases |entries|
  {
    if |entries| > 0 {
      var init, last := entries[..|entries| - 1], entries[|entries| - 1];
      NotGenerated(init, key, s);
      KeySetAppend(FlatFiles(init), EntryFiles(last.0, last.1));
      EntryFilesKeys(last.0, last.1);
      NamesDiffer(key, s, last.0, 0);
      NamesDiffer(key, s, last.0, 1);
      NamesDiffer(key, s, last.0, 2);
    }
  }

  /** Distinct keys give distinct file names. */
  lemma {:induction false} FilenamesDistinct(entries: Entries)
    requires DistinctKeys(entries)
    ensures DistinctKeys(FlatFiles(entries))
    decreases |entries|
  {
    if |entries| > 0 {
      var init, last := entries[..|entries| - 1], entries[|entries| - 1];
      FilenamesDistinct(init);
      NotGenerated(init, last.0, 0);
      NotGenerated(init, last.0, 1);
      NotGenerated(init, last.0, 2);
      AppendEntryFiles(FlatFiles(init), last.0, last.1);
    }
  }

  /** The files of a new key extend a record of distinct names to one. */
  lemma AppendEntryFiles(prev: Entries, key: string, value: string)
    requires DistinctKeys(prev)
    requires key + Suffix(0) !in KeySet(prev) && key + Suffix(1) !in KeySet(prev) && key + Suffix(2) !in KeySet(prev)
    ensures DistinctKeys(prev + EntryFiles(key, value))
  {
    var files := EntryFiles(key, value);
    EntryFilesKeys(key, value);
    var one := prev + [files[0]];
    SnocFacts(prev, files[0]);
    var two := one + [files[1]];
    SnocFacts(one, files[1]);
    SnocFacts(two, files[2]);
    assert prev + files == two + [files[2]];
  }

  /** `generateFiles`: the files of the configured entries followed by
      those of `index`, gathered into one record. */
  function GenerateFiles(entries: Table): (r: Entries)
    ensures DistinctKeys(r)
    ensures AsMap(r) == AsMap(FlatFiles(entries + [IndexEntry]))
  {
    FromEntriesMeaning(FlatFiles(entries + [IndexEntry]));
    FromEntries(FlatFiles(entries + [IndexEntry]))
  }

  /** Without an `index` key among the entries, the record holds exactly
      three files per entry in entry order, `index`'s three last. */
  lemma GeneratedFilesInOrder(entries: Table)
    requires "index" !in KeySet(entries)
    ensures GenerateFiles(entries) == FlatFiles(entries) + EntryFiles("index", "index")
    ensures |GenerateFiles(entries)| == 3 * (|entries| + 1)
  {
    var all := entries + [IndexEntry];
    assert all[..|entries|] == entries;
    FilenamesDistinct(all);
    FromEntriesOfDistinct(FlatFiles(all));
  }

  lemma ApplyThree(m: map<string, string>, d: Entries)
    requires |d| == 3
    ensures Apply(m, d) == m[d[0].0 := d[0].1][d[1].0 := d[1].1][d[2].0 := d[2].1]
  {
    var d2 := d[..2];
    var d1 := d2[..1];
    assert d2[..1] == d1 && d1[..0] == [];
    assert Apply(m, d1) == m[d[0].0 := d[0].1];
    assert Apply(m, d2) == Apply(m, d1)[d[1].0 := d[1].1];
    assert Apply(m, d) == Apply(m, d2)[d[2].0 := d[2].1];
  }

  lemma RootTexts()
    ensures "module.exports = require('" + "./" + "dist/" + "index" + ".cjs');"
      == "module.exports = require('./dist/index.cjs');"
    ensures "export * from '" + ("./" + "dist/" + "index" + ".js") + "'" == "export * from './dist/index.js'"
  {
  }

  /** The files of the `index` entry, which sits at the package root. */
  lemma IndexEntryFiles()
    ensures EntryFiles("index", "index") == [
      ("index.cjs", "module.exports = require('./dist/index.cjs');"),
      ("index.js", "export * from './dist/index.js'"),
      ("index.d.ts", "export * from './dist/index.js'")]
  {
    assert '/' !in "index";
    var r := EntryFiles("index", "index");
    assert r[0].0 == "index.cjs" && r[1].0 == "index.js" && r[2].0 == "index.d.ts";
    assert r[0].1 == "module.exports = require('" + "./" + "dist/" + "index" + ".cjs');";
    assert Prefix("index") == "./";
    assert r[1].1 == "export * from '" + ("./" + "dist/" + "index" + ".js") + "'";
    assert r[2].1 == r[1].1;
    RootTexts();
    assert r[0] == ("index.cjs", "module.exports = require('./dist/index.cjs');");
    assert r[1] == ("index.js", "export * from './dist/index.js'");
    assert r[2] == ("index.d.ts", "export * from './dist/index.js'");
  }

  /** Whatever the entries say, the `index` files re-export `dist/index`:
      the appended pair is assigned last. */
  lemma IndexFilesAlwaysDefault(entries: Table)
    ensures "index.cjs" in AsMap(GenerateFiles(entries))
    ensures AsMap(GenerateFiles(entries))["index.cjs"] == "module.exports = require('./dist/index.cjs');"
    ensures "index.js" in AsMap(GenerateFiles(entries))
    ensures AsMap(GenerateFiles(entries))["index.js"] == "export * from './dist/index.js'"
    ensures "index.d.ts" in AsMap(GenerateFiles(entries))
    ensures AsMap(GenerateFiles(entries))["index.d.ts"] == "export * from './dist/index.js'"
  {
    var index := EntryFiles("index", "index");
    var all := entries + [IndexEntry];
    FromEntriesMeaning(FlatFiles(all));
    assert all[..|entries|] == entries;
    assert FlatFiles(all) == FlatFiles(entries) + index;
    ApplyAppend(map[], FlatFiles(entries), index);
    ApplyThree(AsMap(FlatFiles(entries)), index);
    IndexEntryFiles();
  }

  /** With the script's empty table only the three `index` files exist. */
  lemma ConfiguredFiles()
    ensures GenerateFiles(ConfiguredEntrypoints) == [
      ("index.cjs", "module.exports = require('./dist/index.cjs');"),
      ("index.js", "export * from './dist/index.js'"),
      ("index.d.ts", "export * from './dist/index.js'")]
  {
    GeneratedFilesInOrder(ConfiguredEntrypoints);
    IndexEntryFiles();
    assert FlatFiles(ConfiguredEntrypoints) == [];
  }

  // ---------------------------------------------------------------------
  // The manifest updates of updateConfig
  // ---------------------------------------------------------------------

  /** The documentation entry points: `src/<value>.ts` per configured
      entry, in order; `index` is not among them. */
  function EntryPointsField(entries: Table): (r: Json)
    ensures r.JArr? && |r.items| == |entries|
    ensures forall i :: 0 <= i < |entries| ==> r.items[i] == JStr("src/" + entries[i].1 + ".ts")
  {
    JArr(seq(|entries|, i requires 0 <= i < |entries| => JStr("src/" + entries[i].1 + ".ts")))
  }

  /** The tsconfig rewrite: every field kept, `typedocOptions` kept but for
      its `entryPoints`. Reading `typedocOptions` off `null` throws. */
  function UpdateTsconfig(json: Json, entries: Table): (r: Result<Json, Exception>)
    ensures r.Failure? <==> Nullish(json)
    ensures r.Failure? ==> r.error == TypeError
  {
    var options :- Member(json, "typedocOptions");
    Success(JObj(OwnEntries(json)["typedocOptions" := JObj(OwnEntries(options)["entryPoints" := EntryPointsField(entries)])]))
  }

  /** What the tsconfig rewrite keeps and what it sets. */
  lemma UpdateTsconfigKeeps(json: Json, entries: Table)
    requires !Nullish(json)
    ensures var r := UpdateTsconfig(json, entries).value;
      r.JObj? && r.fields.Keys == OwnEntries(json).Keys + {"typedocOptions"}
      && (forall k :: k in OwnEntries(json) && k != "typedocOptions" ==> r.fields[k] == OwnEntries(json)[k])
    ensures var options := UpdateTsconfig(json, entries).value.fields["typedocOptions"];
      options.JObj? && options.fields.Keys == OwnEntries(Get(json, "typedocOptions")).Keys + {"entryPoints"}
      && options.fields["entryPoints"] == EntryPointsField(entries)
      && (forall k :: k in OwnEntries(Get(json, "typedocOptions")) && k != "entryPoints" ==>
            options.fields[k] == OwnEntries(Get(json, "typedocOptions"))[k])
  {
  }

  /** Running the tsconfig rewrite on its own output changes nothing. */
  lemma UpdateTsconfigIdempotent(json: Json, entries: Table)
    requires !Nullish(json)
    ensures UpdateTsconfig(UpdateTsconfig(json, entries).value, entries) == UpdateTsconfig(json, entries)
  {
    var once := UpdateTsconfig(json, entries).value;
    var options := once.fields["typedocOptions"];
    assert OwnEntries(options)["entryPoints" := EntryPointsField(entries)] == options.fields;
    assert OwnEntries(once)["typedocOptions" := JObj(options.fields)] == once.fields;
  }

  const ExportsField := JObj(map[
    "." := JObj(map["types" := JStr("./index.d.ts"), "import" := JStr("./index.js"), "require" := JStr("./index.cjs")]),
    "./package.json" := JStr("./package.json")])

  /** The `files` list: `dist/` followed by the generated names. */
  function FilesField(filenames: seq<string>): (r: Json)
    ensures r.JArr? && |r.items| == |filenames| + 1 && r.items[0] == JStr("dist/")
    ensures forall i :: 0 <= i < |filenames| ==> r.items[i + 1] == JStr(filenames[i])
  {
    JArr([JStr("dist/")] + seq(|filenames|, i requires 0 <= i < |filenames| => JStr(filenames[i])))
  }

  /** The package manifest rewrite: every field kept but `exports`, which
      always has exactly the `"."` and `"./package.json"` keys, and
      `files`. */
  function UpdatePackage(json: Json, filenames: seq<string>): (r: Json)
    ensures r.JObj? && r.fields.Keys == OwnEntries(json).Keys + {"exports", "files"}
    ensures r.fields["exports"].JObj? && r.fields["exports"].fields.Keys == {".", "./package.json"}
    ensures r.fields["files"] == FilesField(filenames)
    ensures forall k :: k in OwnEntries(json) && k != "exports" && k != "files" ==> r.fields[k] == OwnEntries(json)[k]
  {
    JObj(OwnEntries(json)["exports" := ExportsField]["files" := FilesField(filenames)])
  }

  /** Running the manifest rewrite on its own output changes nothing. */
  lemma UpdatePackageIdempotent(json: Json, filenames: seq<string>)
    ensures UpdatePackage(UpdatePackage(json, filenames), filenames) == UpdatePackage(json, filenames)
  {
    var once := UpdatePackage(json, filenames);
    assert OwnEntries(once)["exports" := ExportsField]["files" := FilesField(filenames)] == once.fields;
  }

  function GitignoreText(filenames: seq<string>): string {
    Join(filenames, "\n") + "\n"
  }

  function MissingFile(path: string): Exception {
    PlainError("ENOENT: no such file or directory, open '" + path + "'")
  }

  // ---------------------------------------------------------------------
  // The workspace the script rewrites
  // ---------------------------------------------------------------------

  class Workspace {
    /** The two JSON manifests, as parsed values. */
    var configs: map<string, Json>
    /** Every other file, by path. */
    var files: map<string, string>

    constructor(configs: map<string, Json>, files: map<string, string>)
      ensures this.configs == configs && this.files == files
    {
      this.configs := configs;
      this.files := files;
    }

    /** Writes the generated files in record order. */
    method WriteGenerated(generated: Entries)
      modifies this
      ensures files == Apply(old(files), generated)
      ensures configs == old(configs)
    {
      var i := 0;
      while i < |generated|
        invariant 0 <= i <= |generated|
        invariant files == Apply(old(files), generated[..i])
        invariant configs == old(configs)
      {
        assert generated[..i + 1][..i] == generated[..i];
        files := files[generated[i].0 := generated[i].1];
        i := i + 1;
      }
      assert generated[..|generated|] == generated;
    }

    /** `updateConfig`: rewrites the tsconfig, then the package manifest,
        then writes the generated files and `.gitignore`. A missing
        manifest or a `null` tsconfig stops the script where it is. */
    method UpdateConfig(entries: Table) returns (r: Result<(), Exception>)
      modifies this
      ensures TsconfigPath !in old(configs) ==>
        r == Failure(MissingFile(TsconfigPath)) && configs == old(configs) && files == old(files)
      ensures TsconfigPath in old(configs) && Nullish(old(configs)[TsconfigPath]) ==>
        r == Failure(TypeError) && configs == old(configs) && files == old(files)
      ensures TsconfigPath in old(configs) && !Nullish(old(configs)[TsconfigPath]) && PackagePath !in old(configs) ==>
        r == Failure(MissingFile(PackagePath))
        && configs == old(configs)[TsconfigPath := UpdateTsconfig(old(configs)[TsconfigPath], entries).value]
        && files == old(files)
      ensures TsconfigPath in old(configs) && !Nullish(old(configs)[TsconfigPath]) && PackagePath in old(configs) ==>
        r == Success(())
        && configs == old(configs)
             [TsconfigPath := UpdateTsconfig(old(configs)[TsconfigPath], entries).value]
             [PackagePath := UpdatePackage(old(configs)[PackagePath], Keys(GenerateFiles(entries)))]
        && files == Apply(old(files), GenerateFiles(entries))
             [GitignorePath := GitignoreText(Keys(GenerateFiles(entries)))]
    {
      if TsconfigPath !in configs {
        return Failure(MissingFile(TsconfigPath));
      }
      var tsconfig :- UpdateTsconfig(configs[TsconfigPath], entries);
      assert |TsconfigPath| != |PackagePath|;
      ghost var manifest := if PackagePath in configs then Some(configs[PackagePath]) else None;
      configs := configs[TsconfigPath := tsconfig];
      assert manifest == if PackagePath in configs then Some(configs[PackagePath]) else None;
      var generatedFiles := GenerateFiles(entries);
      r := UpdateOutputs(generatedFiles);
    }

    /** The second half of `updateConfig`, given the generated record: the
        package manifest, then the files and `.gitignore`. */
    method UpdateOutputs(generatedFiles: Entries) returns (r: Result<(), Exception>)
      modifies this
      ensures PackagePath !in old(configs) ==>
        r == Failure(MissingFile(PackagePath)) && configs == old(configs) && files == old(files)
      ensures PackagePath in old(configs) ==>
        r == Success(())
        && configs == old(configs)[PackagePath := UpdatePackage(old(configs)[PackagePath], Keys(generatedFiles))]
        && files == Apply(old(files), generatedFiles)[GitignorePath := GitignoreText(Keys(generatedFiles))]
    {
      var filenames := Keys(generatedFiles);
      if PackagePath !in configs {
        return Failure(MissingFile(PackagePath));
      }
      configs := configs[PackagePath := UpdatePackage(configs[PackagePath], filenames)];
      WriteGenerated(generatedFiles);
      files := files[GitignorePath := GitignoreText(filenames)];
      r := Success(());
    }

    /** Deletes the named files one by one; a missing one is skipped. */
    method DeleteFiles(generated: Entries)
      modifies this
      ensures files == old(files) - KeySet(generated)
      ensures configs == old(configs)
    {
      var filenames := Keys(generated);
      var i := 0;
      while i < |filenames|
        invariant 0 <= i <= |filenames|
        invariant files == old(files) - KeySet(generated[..i])
        invariant configs == old(configs)
      {
        SnocFacts(generated[..i], generated[i]);
        assert generated[..i + 1] == generated[..i] + [generated[i]];
        files := files - {filenames[i]};
        i := i + 1;
      }
      assert generated[..|generated|] == generated;
    }

    /** `cleanGenerated`: deletes every file `generateFiles` names. */
    method CleanGenerated(entries: Table)
      modifies this
      ensures files == old(files) - KeySet(GenerateFiles(entries))
      ensures configs == old(configs)
    {
      DeleteFiles(GenerateFiles(entries));
    }

    /** The script: `pre` deletes the generated files, any other command
        regenerates them from the script's table. */
    method Run(command: string) returns (r: Result<(), Exception>)
      modifies this
      ensures command == "pre" ==>
        r == Success(()) && configs == old(configs)
        && files == old(files) - KeySet(GenerateFiles(ConfiguredEntrypoints))
    {
      if command == "pre" {
        CleanGenerated(ConfiguredEntrypoints);
        r := Success(());
      } else {
        r := UpdateConfig(ConfiguredEntrypoints);
      }
    }
  }
}
