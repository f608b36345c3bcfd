/** The cache of a finished pairing (class FilenamesHandler): a text table with
    one row per (image, depth) pair, written the way `np.savetxt` writes it with
    a tab delimiter and read back the way `np.genfromtxt` reads it. The file
    system is a map from relative path to file contents. */
module Filenames {
  import opened Outcomes
  import opened Sequences
  import opened PathStrings

  /** Cache files present, by path relative to the project root. */
  type Store = map<string, string>

  /** One cached pair: image path, depth path (both relative to the dataset root). */
  type Row = (string, string)

  /** `'data/' + name + '_' + mode + '.txt'`: where the pairing of one split is cached. */
  function CachePath(name: string, mode: string): string
  {
    "data/" + name + "_" + mode + ".txt"
  }

  /** For one dataset name, different splits never share a cache file. */
  lemma CachePathSeparatesModes(name: string, m1: string, m2: string)
    requires CachePath(name, m1) == CachePath(name, m2)
    ensures m1 == m2
  {
    var head := "data/" + name + "_";
    var c1, c2 := CachePath(name, m1), CachePath(name, m2);
    assert c1 == head + m1 + ".txt" && c2 == head + m2 + ".txt";
    assert |m1| == |m2|;
    assert m1 == c1[|head|..|head| + |m1|];
    assert m2 == c2[|head|..|head| + |m2|];
  }

  // ---------------------------------------------------------------- writing

  /** One row as `np.savetxt(..., delimiter='\t', fmt='%s')` formats it. */
  function RowLine(r: Row): string
  {
    r.0 + "\t" + r.1
  }

  /** The file `np.savetxt` writes: every row followed by a newline, in list order. */
  function Serialise(rows: seq<Row>): string
  {
    if rows == [] then "" else RowLine(rows[0]) + "\n" + Serialise(rows[1..])
  }

  /** `saveList(image_filenames, depth_filenames, name, mode)` with the four
      arguments its caller passes: rows are `zip(image_filenames, depth_filenames)`
      and the file is `data/<name>_<mode>.txt`; no other file changes. */
  function SaveList(images: seq<string>, depths: seq<string>, name: string, mode: string, store: Store): (r: Store)
    ensures CachePath(name, mode) in r && r[CachePath(name, mode)] == Serialise(Zip(images, depths))
    ensures r.Keys == store.Keys + {CachePath(name, mode)}
    ensures forall p :: p in store && p != CachePath(name, mode) ==> r[p] == store[p]
  {
    store[CachePath(name, mode) := Serialise(Zip(images, depths))]
  }

  /** `saveList` as defined, with parameters (image_filenames, depth_filenames, mode)
      after `self`: any other number of positional arguments is a TypeError raised
      before anything is written. `given` counts the arguments after self. */
  function SaveListAsWritten(selfName: string, images: seq<string>, depths: seq<string>,
                             extra: seq<string>, store: Store): (r: Result<Store>)
    ensures r.Ok? <==> |extra| == 1
    ensures r.Err? ==> r.error == SaveListArity(2 + |extra|)
    ensures r.Ok? ==> r.value == SaveList(images, depths, selfName, extra[0], store)
  {
    if |extra| != 1 then Err(SaveListArity(2 + |extra|))
    else Ok(SaveList(images, depths, selfName, extra[0], store))
  }

  /** The call made after every fresh search passes name and mode after the two
      lists: four arguments to a three-parameter method, so the cache is never written. */
  lemma SaveListCallAsWrittenFails(name: string, mode: string, images: seq<string>, depths: seq<string>, store: Store)
    ensures SaveListAsWritten(name, images, depths, [name, mode], store) == Err(SaveListArity(4))
  {
  }

  // ---------------------------------------------------------------- reading

  /** The characters `np.genfromtxt` strips from both ends of a line. */
  predicate IsLineBlank(c: char)
  {
    c == ' ' || c == '\r' || c == '\n'
  }

  function TrimStart(s: string): string
  {
    if |s| > 0 && IsLineBlank(s[0]) then TrimStart(s[1..]) else s
  }

  function TrimEnd(s: string): string
  {
    if |s| > 0 && IsLineBlank(s[|s| - 1]) then TrimEnd(s[..|s| - 1]) else s
  }

  /** The fields of one line: the text before the first '#' (comment), stripped of
      blanks at both ends, split at tabs; a line left empty has no fields. */
  function Fields(line: string): seq<string>
  {
    var t := TrimEnd(TrimStart(Split(line, '#')[0]));
    if t == "" then [] else Split(t, '\t')
  }

  /** The rows of a file: the field lists of its non-empty lines, in order. */
  function TableOf(lines: seq<string>): seq<seq<string>>
  {
    if lines == [] then []
    else
      var f := Fields(lines[0]);
      (if f == [] then [] else [f]) + TableOf(lines[1..])
  }

  predicate Rectangular(table: seq<seq<string>>)
  {
    forall k :: 0 <= k < |table| ==> |table[k]| == |table[0]|
  }

  /** `np.genfromtxt(path, dtype='str', delimiter='\t')` on the file's text: the
      table, or an error when its rows have different numbers of columns. */
  function ParseTable(text: string, path: string): Result<seq<seq<string>>>
  {
    var table := TableOf(Split(text, '\n'));
    if Rectangular(table) then Ok(table) else Err(CorruptFile(path))
  }

  /** `loadList(path)`: the parsed table, or MissingFile when the file is absent
      (the original reports the OSError and exits). */
  function LoadList(store: Store, path: string): (r: Result<seq<seq<string>>>)
    ensures r == Err(MissingFile(path)) <==> path !in store
    ensures r.Ok? ==> Rectangular(r.value)
  {
    if path !in store then Err(MissingFile(path)) else ParseTable(store[path], path)
  }

  // ---------------------------------------------------------------- round trip

  /** A path that survives a write and a read of the table unchanged: no tab, no
      line break, no comment mark, and no blank at either end. */
  predicate SafeField(p: string)
  {
    '\t' !in p && '\n' !in p && '\r' !in p && '#' !in p &&
    (|p| > 0 ==> p[0] != ' ' && p[|p| - 1] != ' ')
  }

  predicate SafeRows(rows: seq<Row>)
  {
    forall k :: 0 <= k < |rows| ==> SafeField(rows[k].0) && SafeField(rows[k].1)
  }

  /** The table a list of rows should read back as: two columns, image then depth. */
  function AsTable(rows: seq<Row>): seq<seq<string>>
  {
    seq(|rows|, k requires 0 <= k < |rows| => [rows[k].0, rows[k].1])
  }

  /** A written row line reads back as its two fields. */
  lemma FieldsOfRowLine(r: Row)
    requires SafeField(r.0) && SafeField(r.1)
    ensures Fields(RowLine(r)) == [r.0, r.1]
  {
    var line := RowLine(r);
    assert line == r.0 + ['\t'] + r.1;
    assert '#' !in line;
    SplitWithoutSeparator(line, '#');
    assert TrimStart(line) == line by {
      if |r.0| > 0 { assert line[0] == r.0[0]; } else { assert line[0] == '\t'; }
    }
    assert TrimEnd(line) == line by {
      if |r.1| > 0 { assert line[|line| - 1] == r.1[|r.1| - 1]; } else { assert line[|line| - 1] == '\t'; }
    }
    SplitAtFirst(r.0, '\t', r.1);
    SplitWithoutSeparator(r.1, '\t');
  }

  /** Reading back a serialised list of safe rows gives the same rows in the same order. */
  lemma {:induction false} ParseSerialised(rows: seq<Row>, path: string)
    requires SafeRows(rows)
    ensures TableOf(Split(Serialise(rows), '\n')) == AsTable(rows)
    ensures ParseTable(Serialise(rows), path) == Ok(AsTable(rows))
    decreases |rows|
  {
    if rows == [] {
      assert Split("", '#') == [""];
      assert Fields("") == [];
      assert Split("", '\n') == [""];
      assert TableOf([""]) == [];
    } else {
      var line := RowLine(rows[0]);
      assert SafeRows(rows[1..]);
      ParseSerialised(rows[1..], path);
      assert '\n' !in line;
      SplitAtFirst(line, '\n', Serialise(rows[1..]));
      FieldsOfRowLine(rows[0]);
      var lines := Split(Serialise(rows), '\n');
      assert lines[1..] == Split(Serialise(rows[1..]), '\n');
      assert TableOf(lines) == [[rows[0].0, rows[0].1]] + AsTable(rows[1..]);
      assert AsTable(rows) == [[rows[0].0, rows[0].1]] + AsTable(rows[1..]);
    }
  }

  /** Saving and then loading the same name and split gives back the zipped rows
      as a two-column table, in list order. */
  lemma SaveThenLoad(images: seq<string>, depths: seq<string>, name: string, mode: string, store: Store)
    requires SafeRows(Zip(images, depths))
    ensures LoadList(SaveList(images, depths, name, mode, store), CachePath(name, mode)) == Ok(AsTable(Zip(images, depths)))
  {
    ParseSerialised(Zip(images, depths), CachePath(name, mode));
  }
}
