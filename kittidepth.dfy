/** The KITTI depth loader (class KittiDepth): resolves the (image, depth) file
    lists of one split, from the cache when it exists, otherwise by enumerating
    both trees, pairing the files by a key taken from their paths, shuffling
    the pairs and caching them. File enumeration (`glob.glob`) and the random
    permutation (`np.random.choice`) are parameters. */
module KittiDepth {
  import opened Outcomes
  import opened Sequences
  import opened PathStrings
  import opened Filenames
  import opened Pairing

  /** A loader: the dataset directory and the name its cache files are filed under. */
  datatype Dataset = Dataset(datasetPath: string, name: string)

  /** The resolved lists and the cache files afterwards. */
  datatype Lists = Lists(images: seq<string>, depths: seq<string>, store: Store)

  /** `KittiDepth(dataset_root, name)`: the dataset lives in the `kitti/` directory under the root. */
  function NewKittiDepth(datasetRoot: string, name: string): (d: Dataset)
    ensures d.datasetPath == datasetRoot + "kitti/" && d.name == name
  {
    Dataset(datasetRoot + "kitti/", name)
  }

  /** The split actually used: 'test' is served by the 'val' split; any other name is kept. */
  function NormaliseMode(mode: string): (m: string)
    ensures m != "test"
    ensures mode == "test" ==> m == "val"
    ensures mode != "test" ==> m == mode
  {
    if mode == "test" then "val" else mode
  }

  // ---------------------------------------------------------------- enumeration

  /** Image files of every split, for the left and the right camera. */
  function ImagePatterns(d: Dataset): seq<string>
  {
    [d.datasetPath + "raw_data/2011_*/*/image_02/data/*.png",
     d.datasetPath + "raw_data/2011_*/*/image_03/data/*.png"]
  }

  /** Ground-truth depth files of one split, for the left and the right camera. */
  function DepthPatterns(d: Dataset, mode: string): seq<string>
  {
    [d.datasetPath + "depth/depth_prediction/data/" + mode + "/*/proj_depth/groundtruth/image_02/*.png",
     d.datasetPath + "depth/depth_prediction/data/" + mode + "/*/proj_depth/groundtruth/image_03/*.png"]
  }

  /** The concatenated matches of the patterns, each pattern's matches in glob's order. */
  function Enumerate(glob: string -> seq<string>, patterns: seq<string>): seq<string>
  {
    if patterns == [] then [] else glob(patterns[0]) + Enumerate(glob, patterns[1..])
  }

  /** `image_filenames_tmp`: the image files found, left camera first. */
  function ImageFiles(d: Dataset, glob: string -> seq<string>): seq<string>
  {
    Enumerate(glob, ImagePatterns(d))
  }

  /** `depth_filenames_tmp`: the depth files of the split found, left camera first. */
  function DepthFiles(d: Dataset, mode: string, glob: string -> seq<string>): seq<string>
  {
    Enumerate(glob, DepthPatterns(d, mode))
  }

  // ---------------------------------------------------------------- keys

  /** Segments kept from an image path: date-drive directory, camera, frame file. */
  const ImageIdx: seq<nat> := [2, 3, 5]
  /** Segments kept from a depth path: date-drive directory, camera, frame file. */
  const DepthIdx: seq<nat> := [4, 7, 8]

  /** The path below the dataset directory, split at '/'. */
  function Segments(root: string, path: string): seq<string>
  {
    Split(StripRoot(root, path), '/')
  }

  /** The correspondence key of a path: the segments at idx joined with '/', or an
      error when the path has too few segments (IndexError in the original). */
  function ExtractKey(root: string, path: string, idx: seq<nat>): (r: Result<string>)
    ensures r.Ok? <==> InRange(idx, |Segments(root, path)|)
    ensures r.Err? ==> r.error == SegmentOutOfRange(path)
  {
    var segs := Segments(root, path);
    if InRange(idx, |segs|) then Ok(Join(Select(segs, idx), '/')) else Err(SegmentOutOfRange(path))
  }

  /** The key of every path, in order; the first path without a key stops the extraction. */
  function ExtractKeys(root: string, paths: seq<string>, idx: seq<nat>): (r: Result<seq<string>>)
    ensures r.Ok? <==> forall k :: 0 <= k < |paths| ==> ExtractKey(root, paths[k], idx).Ok?
    ensures r.Ok? ==> |r.value| == |paths|
    ensures r.Ok? ==> forall k :: 0 <= k < |paths| ==> ExtractKey(root, paths[k], idx) == Ok(r.value[k])
    ensures r.Err? ==> exists k :: FirstKeyError(root, paths, idx, k, r.error)
    decreases |paths|
  {
    if paths == [] then Ok([])
    else
      match ExtractKey(root, paths[0], idx)
      case Err(e) =>
        assert FirstKeyError(root, paths, idx, 0, e);
        Err(e)
      case Ok(key) =>
        match ExtractKeys(root, paths[1..], idx)
        case Err(e) =>
          ghost var k :| FirstKeyError(root, paths[1..], idx, k, e);
          assert FirstKeyError(root, paths, idx, k + 1, e);
          Err(e)
        case Ok(keys) => Ok([key] + keys)
  }

  /** paths[k] is the first path without a key, and e is its error. */
  ghost predicate FirstKeyError(root: string, paths: seq<string>, idx: seq<nat>, k: int, e: Error)
  {
    0 <= k < |paths| && ExtractKey(root, paths[k], idx) == Err(e) &&
    forall k' :: 0 <= k' < k ==> ExtractKey(root, paths[k'], idx).Ok?
  }

  function ImageKey(d: Dataset, path: string): Result<string>
  {
    ExtractKey(d.datasetPath, path, ImageIdx)
  }

  function DepthKey(d: Dataset, path: string): Result<string>
  {
    ExtractKey(d.datasetPath, path, DepthIdx)
  }

  /** A key splits back into exactly the chosen segments, so equal keys mean equal
      chosen segments. */
  lemma KeyIsChosenSegments(root: string, path: string, idx: seq<nat>)
    requires |idx| >= 1 && ExtractKey(root, path, idx).Ok?
    ensures Split(ExtractKey(root, path, idx).value, '/') == Select(Segments(root, path), idx)
  {
    SplitJoin(Select(Segments(root, path), idx), '/');
  }

  /** A path made of the root and '/'-separated parts has as key the chosen parts joined with '/'. */
  lemma KeyOfJoinedParts(root: string, parts: seq<string>, idx: seq<nat>)
    requires |parts| >= 1 && InRange(idx, |parts|)
    requires forall k :: 0 <= k < |parts| ==> '/' !in parts[k]
    ensures ExtractKey(root, root + Join(parts, '/'), idx) == Ok(Join(Select(parts, idx), '/'))
  {
    StripPrefixed(root, Join(parts, '/'));
    SplitJoin(parts, '/');
  }

  /** The key shared by the image and the depth map of one frame. */
  function FrameKey(drive: string, camera: string, frame: string): string
  {
    drive + "/" + camera + "/" + frame
  }

  lemma FrameKeyJoin(drive: string, camera: string, frame: string)
    ensures Join([drive, camera, frame], '/') == FrameKey(drive, camera, frame)
  {
    JoinCons(camera, [frame], '/');
    JoinCons(drive, [camera, frame], '/');
  }

  /** The segments of an image below the dataset directory:
      `raw_data/<date>/<drive>/<camera>/data/<frame>`. */
  function ImageLayout(date: string, drive: string, camera: string, frame: string): seq<string>
  {
    ["raw_data", date, drive, camera, "data", frame]
  }

  /** The segments of a depth map below the dataset directory:
      `depth/depth_prediction/data/<split>/<drive>/proj_depth/groundtruth/<camera>/<frame>`. */
  function DepthLayout(mode: string, drive: string, camera: string, frame: string): seq<string>
  {
    ["depth", "depth_prediction", "data", mode, drive, "proj_depth", "groundtruth", camera, frame]
  }

  /** For the KITTI layout the two index lists agree: an image and the depth map of
      the same drive, camera and frame both have the key `<drive>/<camera>/<frame>`,
      whatever the date directory and the split. */
  lemma LayoutKeysAgree(d: Dataset, mode: string, date: string, drive: string, camera: string, frame: string)
    requires '/' !in mode && '/' !in date && '/' !in drive && '/' !in camera && '/' !in frame
    ensures ImageKey(d, d.datasetPath + Join(ImageLayout(date, drive, camera, frame), '/'))
         == Ok(FrameKey(drive, camera, frame))
    ensures DepthKey(d, d.datasetPath + Join(DepthLayout(mode, drive, camera, frame), '/'))
         == Ok(FrameKey(drive, camera, frame))
  {
    FrameKeyJoin(drive, camera, frame);
    ImageLayoutKey(d, date, drive, camera, frame);
    DepthLayoutKey(d, mode, drive, camera, frame);
  }

  /** Indices 2, 3 and 5 of an image path pick its drive, camera and frame. */
  lemma ImageLayoutKey(d: Dataset, date: string, drive: string, camera: string, frame: string)
    requires '/' !in date && '/' !in drive && '/' !in camera && '/' !in frame
    ensures ImageKey(d, d.datasetPath + Join(ImageLayout(date, drive, camera, frame), '/'))
         == Ok(Join([drive, camera, frame], '/'))
  {
    var image := ImageLayout(date, drive, camera, frame);
    assert forall k :: 0 <= k < |image| ==> '/' !in image[k] by {
      assert '/' !in "raw_data" && '/' !in "data";
    }
    KeyOfJoinedParts(d.datasetPath, image, ImageIdx);
    assert Select(image, ImageIdx) == [drive, camera, frame];
  }

  /** Indices 4, 7 and 8 of a depth path pick its drive, camera and frame. */
  lemma DepthLayoutKey(d: Dataset, mode: string, drive: string, camera: string, frame: string)
    requires '/' !in mode && '/' !in drive && '/' !in camera && '/' !in frame
    ensures DepthKey(d, d.datasetPath + Join(DepthLayout(mode, drive, camera, frame), '/'))
         == Ok(Join([drive, camera, frame], '/'))
  {
    var depth := DepthLayout(mode, drive, camera, frame);
    assert forall k :: 0 <= k < |depth| ==> '/' !in depth[k] by {
      assert '/' !in "depth" && '/' !in "depth_prediction" && '/' !in "data";
      assert '/' !in "proj_depth" && '/' !in "groundtruth";
    }
    KeyOfJoinedParts(d.datasetPath, depth, DepthIdx);
    assert Select(depth, DepthIdx) == [drive, camera, frame];
  }

  // ---------------------------------------------------------------- cache hit

  /** `data[:, 0]` and `data[:, 1]`: the image and depth column of every row, or an
      error when a row has fewer than two columns. */
  function ColumnPairs(table: seq<seq<string>>, path: string): Result<seq<Row>>
  {
    if forall k :: 0 <= k < |table| ==> |table[k]| >= 2
    then Ok(seq(|table|, k requires 0 <= k < |table| && |table[k]| >= 2 => (table[k][0], table[k][1])))
    else Err(CorruptFile(path))
  }

  function Prefixed(root: string, paths: seq<string>): seq<string>
  {
    seq(|paths|, k requires 0 <= k < |paths| => root + paths[k])
  }

  function Stripped(root: string, paths: seq<string>): seq<string>
  {
    seq(|paths|, k requires 0 <= k < |paths| => StripRoot(root, paths[k]))
  }

  function Firsts(rows: seq<Row>): seq<string>
  {
    seq(|rows|, k requires 0 <= k < |rows| => rows[k].0)
  }

  function Seconds(rows: seq<Row>): seq<string>
  {
    seq(|rows|, k requires 0 <= k < |rows| => rows[k].1)
  }

  /** The cache-hit branch: load the table and put the dataset directory back in front. */
  function CacheHit(d: Dataset, store: Store, file: string): Result<Lists>
  {
    match LoadList(store, file)
    case Err(e) => Err(e)
    case Ok(table) =>
      match ColumnPairs(table, file)
      case Err(e) => Err(e)
      case Ok(rows) => Ok(Lists(Prefixed(d.datasetPath, Firsts(rows)), Prefixed(d.datasetPath, Seconds(rows)), store))
  }

  // ---------------------------------------------------------------- cache miss

  /** The randomness source: each draw for n is a permutation of [0, n). */
  ghost predicate DrawsPermutations(draw: nat -> seq<nat>)
  {
    forall n: nat :: IsPermutation(draw(n), n)
  }

  /** Shuffle both lists by the same permutation s, then cache them with the dataset
      directory removed. */
  function ShuffleAndSave(d: Dataset, mode: string, store: Store,
                          images: seq<string>, depths: seq<string>, s: seq<nat>): Lists
    requires |images| == |depths| && IsPermutation(s, |images|)
  {
    PermutationShape(s, |images|);
    var shuffledImages := Select(images, s);
    var shuffledDepths := Select(depths, s);
    Lists(shuffledImages, shuffledDepths,
          SaveList(Stripped(d.datasetPath, shuffledImages), Stripped(d.datasetPath, shuffledDepths), d.name, mode, store))
  }

  /** The cache-miss branch: enumerate, extract keys, pair, shuffle and save. */
  function CacheMiss(d: Dataset, mode: string, store: Store,
                     glob: string -> seq<string>, draw: nat -> seq<nat>): Result<Lists>
    requires DrawsPermutations(draw)
  {
    var imageFiles := ImageFiles(d, glob);
    var depthFiles := DepthFiles(d, mode, glob);
    match ExtractKeys(d.datasetPath, imageFiles, ImageIdx)
    case Err(e) => Err(e)
    case Ok(imageKeys) =>
      match ExtractKeys(d.datasetPath, depthFiles, DepthIdx)
      case Err(e) => Err(e)
      case Ok(depthKeys) =>
        var ms := Matches(imageKeys, depthKeys);
        assert InRange(ImageIndices(ms), |imageFiles|) && InRange(DepthIndices(ms), |depthFiles|);
        var images := Select(imageFiles, ImageIndices(ms));
        var depths := Select(depthFiles, DepthIndices(ms));
        assert IsPermutation(draw(|images|), |images|);
        Ok(ShuffleAndSave(d, mode, store, images, depths, draw(|ms|)))
  }

  /** What `getFilenamesLists(mode)` returns, and the cache files afterwards, with the
      cache-miss save made as its caller intends (`saveList` taking name and mode after
      the two lists); `GetFilenamesAsWritten` is the call as the source makes it. */
  function GetFilenames(d: Dataset, mode: string, store: Store,
                        glob: string -> seq<string>, draw: nat -> seq<nat>): Result<Lists>
    requires DrawsPermutations(draw)
  {
    var split := NormaliseMode(mode);
    var file := CachePath(d.name, split);
    if file in store then CacheHit(d, store, file) else CacheMiss(d, split, store, glob, draw)
  }

  /** `getFilenamesLists(mode)`: the pairing search runs as the nested loop; the two
      lists it builds always have equal length, so the original's assert never fails. */
  method GetFilenamesLists(d: Dataset, mode: string, store: Store,
                           glob: string -> seq<string>, draw: nat -> seq<nat>)
    returns (r: Result<Lists>)
    requires DrawsPermutations(draw)
    ensures r == GetFilenames(d, mode, store, glob, draw)
    ensures r.Ok? ==> |r.value.images| == |r.value.depths|
  {
    var split := NormaliseMode(mode);
    var file := CachePath(d.name, split);
    if file in store {
      r := CacheHit(d, store, file);
      return;
    }
    var imageFiles := ImageFiles(d, glob);
    var depthFiles := DepthFiles(d, split, glob);
    var imageKeys := ExtractKeys(d.datasetPath, imageFiles, ImageIdx);
    if imageKeys.Err? {
      return Err(imageKeys.error);
    }
    var depthKeys := ExtractKeys(d.datasetPath, depthFiles, DepthIdx);
    if depthKeys.Err? {
      return Err(depthKeys.error);
    }
    var images, depths := PairingSearch(imageFiles, depthFiles, imageKeys.value, depthKeys.value);
    assert |images| == |depths|;
    var s := draw(|images|);
    r := Ok(ShuffleAndSave(d, split, store, images, depths, s));
  }

  /** `getFilenamesLists(mode)` with the save as written: after the search and the
      shuffle, `saveList` is called with name and split after the two lists, which the
      three-parameter definition refuses before anything is saved or returned. */
  function GetFilenamesAsWritten(d: Dataset, mode: string, store: Store,
                                 glob: string -> seq<string>, draw: nat -> seq<nat>): Result<Lists>
    requires DrawsPermutations(draw)
  {
    var split := NormaliseMode(mode);
    var file := CachePath(d.name, split);
    if file in store then CacheHit(d, store, file)
    else
      match CacheMiss(d, split, store, glob, draw)
      case Err(e) => Err(e)
      case Ok(paired) =>
        match SaveListAsWritten(d.name, Stripped(d.datasetPath, paired.images), Stripped(d.datasetPath, paired.depths),
                                [d.name, split], store)
        case Err(e) => Err(e)
        case Ok(saved) => Ok(Lists(paired.images, paired.depths, saved))
  }

  /** As written, no cache miss ever returns lists or writes the cache: a search whose
      keys extract ends in the arity error, any other in its key error. Cache hits are
      served as intended. */
  lemma CacheMissFailsAsWritten(d: Dataset, mode: string, store: Store,
                                glob: string -> seq<string>, draw: nat -> seq<nat>)
    requires DrawsPermutations(draw)
    ensures var file := CachePath(d.name, NormaliseMode(mode));
            file !in store ==> GetFilenamesAsWritten(d, mode, store, glob, draw).Err?
    ensures var file := CachePath(d.name, NormaliseMode(mode));
            file !in store && GetFilenames(d, mode, store, glob, draw).Ok? ==>
              GetFilenamesAsWritten(d, mode, store, glob, draw) == Err(SaveListArity(4))
    ensures var file := CachePath(d.name, NormaliseMode(mode));
            file in store ==> GetFilenamesAsWritten(d, mode, store, glob, draw) == GetFilenames(d, mode, store, glob, draw)
  {
  }

  // ---------------------------------------------------------------- properties

  /** 'test' is served exactly as 'val': the same cache file, the same depth files,
      the same result. */
  lemma TestIsVal(d: Dataset, store: Store, glob: string -> seq<string>, draw: nat -> seq<nat>)
    requires DrawsPermutations(draw)
    ensures CachePath(d.name, NormaliseMode("test")) == CachePath(d.name, "val")
    ensures DepthPatterns(d, NormaliseMode("test")) == DepthPatterns(d, "val")
    ensures GetFilenames(d, "test", store, glob, draw) == GetFilenames(d, "val", store, glob, draw)
  {
  }

  /** On a cache hit nothing is searched, shuffled or written: the lists are the two
      first columns of the cached table, in row order, each behind the dataset directory. */
  lemma CacheHitRows(d: Dataset, mode: string, store: Store, glob: string -> seq<string>, draw: nat -> seq<nat>)
    requires DrawsPermutations(draw)
    requires CachePath(d.name, NormaliseMode(mode)) in store
    ensures var file := CachePath(d.name, NormaliseMode(mode));
            var r := GetFilenames(d, mode, store, glob, draw);
            match LoadList(store, file)
            case Err(e) => r == Err(e)
            case Ok(table) =>
              if forall k :: 0 <= k < |table| ==> |table[k]| >= 2 then
                r.Ok? && r.value.store == store &&
                |r.value.images| == |table| && |r.value.depths| == |table| &&
                forall k :: 0 <= k < |table| ==>
                  r.value.images[k] == d.datasetPath + table[k][0] &&
                  r.value.depths[k] == d.datasetPath + table[k][1]
              else r == Err(CorruptFile(file))
  {
  }

  /** After a fresh search every returned image has a key, equal to the key of the depth
      map at the same position; the lists have equal length; and the cache holds the
      returned lists with the dataset directory removed. */
  lemma FreshPairsShareKeys(d: Dataset, mode: string, store: Store, glob: string -> seq<string>, draw: nat -> seq<nat>)
    requires DrawsPermutations(draw)
    requires CachePath(d.name, NormaliseMode(mode)) !in store
    requires GetFilenames(d, mode, store, glob, draw).Ok?
    ensures var out := GetFilenames(d, mode, store, glob, draw).value;
            |out.images| == |out.depths| &&
            (forall k :: 0 <= k < |out.images| ==>
              ImageKey(d, out.images[k]).Ok? && ImageKey(d, out.images[k]) == DepthKey(d, out.depths[k])) &&
            out.store == SaveList(Stripped(d.datasetPath, out.images), Stripped(d.datasetPath, out.depths),
                                  d.name, NormaliseMode(mode), store)
  {
    var split := NormaliseMode(mode);
    var imageFiles, depthFiles := ImageFiles(d, glob), DepthFiles(d, split, glob);
    var imageKeys := ExtractKeys(d.datasetPath, imageFiles, ImageIdx).value;
    var depthKeys := ExtractKeys(d.datasetPath, depthFiles, DepthIdx).value;
    var ms := Matches(imageKeys, depthKeys);
    var images := Select(imageFiles, ImageIndices(ms));
    var depths := Select(depthFiles, DepthIndices(ms));
    var s := draw(|ms|);
    PermutationShape(s, |ms|);
    var out := GetFilenames(d, mode, store, glob, draw).value;
    assert out == ShuffleAndSave(d, split, store, images, depths, s);
    forall k | 0 <= k < |out.images|
      ensures ImageKey(d, out.images[k]).Ok? && ImageKey(d, out.images[k]) == DepthKey(d, out.depths[k])
    {
      var m := ms[s[k]];
      assert out.images[k] == imageFiles[m.0];
      assert out.depths[k] == depthFiles[m.1];
      assert ImageKey(d, imageFiles[m.0]) == Ok(imageKeys[m.0]);
      assert DepthKey(d, depthFiles[m.1]) == Ok(depthKeys[m.1]);
    }
  }

  /** After a fresh search the returned pairs are a rearrangement of exactly the pairs
      the search emitted, one for every image and depth index pair with equal keys. */
  lemma FreshIsShuffledMatches(d: Dataset, mode: string, store: Store, glob: string -> seq<string>, draw: nat -> seq<nat>)
    requires DrawsPermutations(draw)
    requires CachePath(d.name, NormaliseMode(mode)) !in store
    requires ExtractKeys(d.datasetPath, ImageFiles(d, glob), ImageIdx).Ok?
    requires ExtractKeys(d.datasetPath, DepthFiles(d, NormaliseMode(mode), glob), DepthIdx).Ok?
    ensures var imageFiles := ImageFiles(d, glob);
            var depthFiles := DepthFiles(d, NormaliseMode(mode), glob);
            var imageKeys := ExtractKeys(d.datasetPath, imageFiles, ImageIdx).value;
            var depthKeys := ExtractKeys(d.datasetPath, depthFiles, DepthIdx).value;
            var ms := Matches(imageKeys, depthKeys);
            var r := GetFilenames(d, mode, store, glob, draw);
            r.Ok? &&
            |r.value.images| == |MatchSet(imageKeys, depthKeys)| &&
            multiset(Zip(r.value.images, r.value.depths))
              == multiset(Zip(Select(imageFiles, ImageIndices(ms)), Select(depthFiles, DepthIndices(ms))))
  {
    var split := NormaliseMode(mode);
    var imageFiles, depthFiles := ImageFiles(d, glob), DepthFiles(d, split, glob);
    var imageKeys := ExtractKeys(d.datasetPath, imageFiles, ImageIdx).value;
    var depthKeys := ExtractKeys(d.datasetPath, depthFiles, DepthIdx).value;
    var ms := Matches(imageKeys, depthKeys);
    var images := Select(imageFiles, ImageIndices(ms));
    var depths := Select(depthFiles, DepthIndices(ms));
    var s := draw(|ms|);
    PermutationShape(s, |ms|);
    var out := GetFilenames(d, mode, store, glob, draw).value;
    assert out == ShuffleAndSave(d, split, store, images, depths, s);
    MatchesCount(imageKeys, depthKeys);
    ZipSelect(images, depths, s);
    SelectPermutation(Zip(images, depths), s);
  }

  /** The two columns of a two-column table are the rows it was made from. */
  lemma ColumnsOfTable(rows: seq<Row>, file: string)
    ensures ColumnPairs(AsTable(rows), file) == Ok(rows)
  {
    var table := AsTable(rows);
    assert forall k :: 0 <= k < |table| ==> |table[k]| >= 2;
    assert ColumnPairs(table, file).value == rows;
  }

  /** A split for which no image or no depth file is found gives two empty lists, not
      an error, and caches an empty table. */
  lemma EmptyEnumerationGivesEmptyLists(d: Dataset, mode: string, store: Store,
                                        glob: string -> seq<string>, draw: nat -> seq<nat>)
    requires DrawsPermutations(draw)
    requires CachePath(d.name, NormaliseMode(mode)) !in store
    requires ExtractKeys(d.datasetPath, ImageFiles(d, glob), ImageIdx).Ok?
    requires ExtractKeys(d.datasetPath, DepthFiles(d, NormaliseMode(mode), glob), DepthIdx).Ok?
    requires ImageFiles(d, glob) == [] || DepthFiles(d, NormaliseMode(mode), glob) == []
    ensures GetFilenames(d, mode, store, glob, draw)
         == Ok(Lists([], [], store[CachePath(d.name, NormaliseMode(mode)) := ""]))
  {
    var imageKeys := ExtractKeys(d.datasetPath, ImageFiles(d, glob), ImageIdx).value;
    var depthKeys := ExtractKeys(d.datasetPath, DepthFiles(d, NormaliseMode(mode), glob), DepthIdx).value;
    FreshIsShuffledMatches(d, mode, store, glob, draw);
    assert MatchSet(imageKeys, depthKeys) == {};
    assert Matches(imageKeys, depthKeys) == [];
  }

  /** A path the cache can hold: inside the dataset directory, and its relative part
      survives the tab-separated file. */
  predicate Cacheable(d: Dataset, path: string)
  {
    d.datasetPath <= path && SafeField(StripRoot(d.datasetPath, path))
  }

  /** The next call for the same split, whatever the files on disk and the random draws
      by then, reads the cache and returns the same two lists in the same order. */
  lemma FreshThenCached(d: Dataset, mode: string, store: Store, glob: string -> seq<string>, draw: nat -> seq<nat>,
                        glob': string -> seq<string>, draw': nat -> seq<nat>)
    requires DrawsPermutations(draw) && DrawsPermutations(draw')
    requires CachePath(d.name, NormaliseMode(mode)) !in store
    requires GetFilenames(d, mode, store, glob, draw).Ok?
    requires var out := GetFilenames(d, mode, store, glob, draw).value;
             forall k :: 0 <= k < |out.images| ==> Cacheable(d, out.images[k]) && Cacheable(d, out.depths[k])
    ensures var out := GetFilenames(d, mode, store, glob, draw).value;
            GetFilenames(d, mode, out.store, glob', draw') == Ok(out)
  {
    var out := GetFilenames(d, mode, store, glob, draw).value;
    FreshPairsShareKeys(d, mode, store, glob, draw);
    SavedListsReload(d, NormaliseMode(mode), store, out.images, out.depths);
  }

  /** Lists saved without the dataset directory load back, behind it, as the same lists. */
  lemma SavedListsReload(d: Dataset, mode: string, store: Store, images: seq<string>, depths: seq<string>)
    requires |images| == |depths|
    requires forall k :: 0 <= k < |images| ==> Cacheable(d, images[k]) && Cacheable(d, depths[k])
    ensures var saved := SaveList(Stripped(d.datasetPath, images), Stripped(d.datasetPath, depths), d.name, mode, store);
            CacheHit(d, saved, CachePath(d.name, mode)) == Ok(Lists(images, depths, saved))
  {
    var root := d.datasetPath;
    var file := CachePath(d.name, mode);
    var relImages, relDepths := Stripped(root, images), Stripped(root, depths);
    var saved := SaveList(relImages, relDepths, d.name, mode, store);
    var rows := Zip(relImages, relDepths);
    assert SafeRows(rows);
    SaveThenLoad(relImages, relDepths, d.name, mode, store);
    ColumnsOfTable(rows, file);
    forall k | 0 <= k < |images|
      ensures root + relImages[k] == images[k] && root + relDepths[k] == depths[k]
    {
      ReprefixStripped(root, images[k]);
      ReprefixStripped(root, depths[k]);
    }
    assert Prefixed(root, Firsts(rows)) == images;
    assert Prefixed(root, Seconds(rows)) == depths;
  }
}
