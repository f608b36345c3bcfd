# KITTI depth filename resolution and caching, in Dafny

This project models how the KITTI depth loader of FCRN-DepthPrediction builds
its list of (RGB image, ground-truth depth map) file pairs for one dataset
split, and proves properties of that model.

`KittiDepth.getFilenamesLists(mode)` works like this:

- It maps the split `'test'` to `'val'`.
- If the cache file `data/<name>_<split>.txt` exists, it reads the
  tab-separated table and puts the dataset directory back in front of both
  columns.
- Otherwise it finds the image files and the depth files of the split. It
  removes the dataset directory from every path and splits the rest at `/`.
  An image keeps segments 2, 3 and 5 as its key. A depth map keeps segments
  4, 7 and 8. In both cases these are the drive, the camera and the frame.
- A nested loop then emits an (image, depth) pair for every pair of equal
  keys. Depth maps form the outer loop.
- Both lists are reordered by one random permutation. They are meant to be
  saved without the dataset directory and returned. As written, the save call
  passes one argument too many, so this step fails (see "## Findings").
  `GetFilenames` and `GetFilenamesLists` model the intended save;
  `GetFilenamesAsWritten` models the call as it is made.

`FilenamesHandler.saveList`/`loadList` write and read that table through
`np.savetxt`/`np.genfromtxt`.

Files:

- `outcomes.dfy`: the error outcomes.
- `sequences.dfy`: Python's `zip`, NumPy's reindexing `np.array(xs)[idx]`
  (`Select`), and permutations of `[0, n)`.
- `pathstrings.dfy`: `str.split`, `str.join` and the removal of the dataset
  directory.
- `filenames.dfy`: the cache table. Writing, reading, the cache path, and the
  `saveList` call as written.
- `pairing.dfy`: the nested-loop search as a method (`PairingSearch`). It is
  proved against the specification `Matches`, the (image index, depth index)
  pairs in emission order.
- `kittidepth.dfy`: `getFilenamesLists` as a method (`GetFilenamesLists`),
  proved equal to the function `GetFilenames`. Also the loader's properties.

The environment becomes parameters:

- the file system's cache files: `Store`, a map from relative path to
  contents;
- `glob.glob`: a function from pattern to paths;
- `np.random.choice(n, n, replace=False)`: a function `draw` that must give
  a permutation of `[0, n)` for every `n`.

The cache round trip (`FreshThenCached`) is proved for paths that are
`Cacheable`. That means the path lies under the dataset directory, and its
relative part has no tab, line break, carriage return or `#`, and no space at
either end. This is a sufficient condition, not a necessary one. `genfromtxt`
cuts a line at `#` and strips blanks from the two ends of the whole line, so
a `#` anywhere, a leading space on the image path or a trailing space on the
depth path changes what is read back. A trailing space on the image path or a
leading space on the depth path sits next to the tab and survives, although
`Cacheable` excludes it.

## Model

| member | source | states |
|---|---|---|
| KittiDepth.NewKittiDepth | tensorflow/modules/datasets/kittidepth.py:44-48 | the dataset directory is `kitti/` under the given root; the name is kept for the cache file |
| KittiDepth.NormaliseMode | tensorflow/modules/datasets/kittidepth.py:63-64 | the split used is never `'test'`: `'test'` becomes `'val'` and every other split name is kept |
| KittiDepth.TestIsVal | tensorflow/modules/datasets/kittidepth.py:63-86 | `'test'` and `'val'` use the same cache file and the same depth glob patterns, and give the same result |
| Filenames.CachePathSeparatesModes | tensorflow/modules/filenames.py:47 | for one dataset name, two different splits never share a cache file |
| KittiDepth.CacheHitRows | tensorflow/modules/datasets/kittidepth.py:68-77 | on a cache hit the store is unchanged; both lists have one entry per table row, in row order; entry k is the dataset directory plus column 0 (images) or column 1 (depths); a row with fewer than two columns is a CorruptFile error |
| KittiDepth.ExtractKey | tensorflow/modules/datasets/kittidepth.py:95-102 | a path has a key exactly when every chosen index is a valid segment index after the dataset directory is removed; otherwise the result is SegmentOutOfRange for that path |
| KittiDepth.ExtractKeys | tensorflow/modules/datasets/kittidepth.py:95-102 | keys exist for all paths exactly when each path has one; the keys are in path order, one per path; on failure the error is that of the first path without a key |
| KittiDepth.KeyIsChosenSegments | tensorflow/modules/datasets/kittidepth.py:98-102 | a key splits at `/` back into exactly the chosen segments (image 2, 3, 5; depth 4, 7, 8), so equal keys mean equal chosen segments |
| KittiDepth.LayoutKeysAgree | tensorflow/modules/datasets/kittidepth.py:85-102 | an image `raw_data/<date>/<drive>/<camera>/data/<frame>` and a depth map `depth/depth_prediction/data/<split>/<drive>/proj_depth/groundtruth/<camera>/<frame>` both have the key `<drive>/<camera>/<frame>` |
| Pairing.PairingSearch | tensorflow/modules/datasets/kittidepth.py:117-125 | the nested loop emits exactly the image and depth paths of the `Matches` index pairs, in order; the two lists have equal length, so the length assert never fires |
| Pairing.Matches | tensorflow/modules/datasets/kittidepth.py:117-122 | every emitted index pair is in range and its image key equals its depth key |
| Pairing.MatchesExactly | tensorflow/modules/datasets/kittidepth.py:117-122 | (i, j) is emitted if and only if both indices are in range and the keys are equal; unmatched images and depths are dropped |
| Pairing.MatchesOrdered | tensorflow/modules/datasets/kittidepth.py:117-122 | the output is strictly ordered by depth index first and image index second, so no pair is emitted twice |
| Pairing.MatchesCount | tensorflow/modules/datasets/kittidepth.py:117-122 | the number of emitted pairs equals the number of (image, depth) index pairs with equal keys |
| Sequences.Zip | tensorflow/modules/filenames.py:42 | `zip` pairs equal positions and truncates to the shorter list |
| Sequences.Select | tensorflow/modules/datasets/kittidepth.py:130-131 | reindexing by `s` gives one element per index, element k being `xs[s[k]]` |
| Sequences.PermutationShape | tensorflow/modules/datasets/kittidepth.py:129 | a permutation of `[0, n)` has n entries, all valid indices, none repeated |
| Sequences.SelectPermutation | tensorflow/modules/datasets/kittidepth.py:129-131 | reindexing by a permutation keeps the same elements with the same multiplicities |
| Sequences.ZipSelect | tensorflow/modules/datasets/kittidepth.py:130-131 | reindexing the image and depth lists by one permutation reindexes their pairs, so the pairing is kept |
| KittiDepth.FreshIsShuffledMatches | tensorflow/modules/datasets/kittidepth.py:111-131 | after a fresh search the result has as many pairs as there are key-equal index pairs, and its pairs are the emitted pairs with the same multiplicities, in shuffled order |
| KittiDepth.FreshPairsShareKeys | tensorflow/modules/datasets/kittidepth.py:117-142 | after a fresh search both lists have equal length; every returned image has a key equal to the key of the depth map at the same position; the cache holds the returned lists with the dataset directory removed |
| KittiDepth.EmptyEnumerationGivesEmptyLists | tensorflow/modules/datasets/kittidepth.py:85-142 | no image files or no depth files give two empty lists and an empty cache table, not an error |
| KittiDepth.SavedListsReload | tensorflow/modules/datasets/kittidepth.py:76-77 | lists saved with the dataset directory removed load back, with it put back, as the same lists in the same order, provided every path is cacheable |
| KittiDepth.FreshThenCached | tensorflow/modules/datasets/kittidepth.py:66-142 | after a fresh search, the next call for that split reads the cache and returns the same lists in the same order, whatever glob and the random draw give then |
| KittiDepth.GetFilenamesLists | tensorflow/modules/datasets/kittidepth.py:58-144 | the method computes what the specification `GetFilenames` says, and the two returned lists always have equal length; on a cache miss it makes the intended four-argument save, not the failing call at line 142 |
| KittiDepth.CacheMissFailsAsWritten | tensorflow/modules/datasets/kittidepth.py:66-144 | with the save call as written, every cache miss is an error: one whose keys extract ends in the arity error, so no lists are returned and no cache file is written; cache hits are unaffected |
| Filenames.SaveList | tensorflow/modules/filenames.py:40-50 | the file `data/<name>_<mode>.txt` gets the serialised zip of the two lists; no other file changes |
| Filenames.LoadList | tensorflow/modules/filenames.py:29-38 | a missing file is the MissingFile error and nothing else is; a table that is read has rows of equal width |
| Filenames.ParseSerialised | tensorflow/modules/filenames.py:32-50 | reading back the tab-separated, newline-terminated rows gives each row's two fields in list order |
| Filenames.SaveThenLoad | tensorflow/modules/filenames.py:29-50 | loading the file that was just saved for a name and split gives the zipped rows as a two-column table |
| Filenames.SaveListAsWritten | tensorflow/modules/filenames.py:40 | `saveList` as defined accepts exactly one argument after the two lists; any other count is an arity error and nothing is written |
| Filenames.SaveListCallAsWrittenFails | tensorflow/modules/datasets/kittidepth.py:142 | the call made after every fresh search passes four arguments and fails with an arity error |

## Findings

| source | as written | input that shows it | evidently intended | confidence | as-written member | corrected member |
|---|---|---|---|---|---|---|
| tensorflow/modules/datasets/kittidepth.py:142, tensorflow/modules/filenames.py:40 | `saveList` is defined with the parameters (image_filenames, depth_filenames, mode). Its only caller passes (image_filenames_dump, depth_filenames_dump, self.name, mode). That is a TypeError, raised after the whole search, so the cache is never written and no lists are returned. | any call of `getFilenamesLists` whose file `data/<name>_<split>.txt` does not exist | `saveList(images, depths, name, mode)` writes `data/<name>_<mode>.txt` | high; not executed | Filenames.SaveListAsWritten, Filenames.SaveListCallAsWrittenFails, KittiDepth.CacheMissFailsAsWritten | Filenames.SaveList, Filenames.SaveThenLoad |

## Left out

- The loader's file enumeration through `glob.glob`, the existence check through `os.path.exists`, and the file I/O of `np.genfromtxt`/`np.savetxt` are not modelled. They become a glob function parameter, a map of cache files, and pure serialise/parse functions. The order in which glob lists files is whatever the parameter returns.
- The save path is built from the package location (`<project root>/data/...`), while the existence check and the load use `data/...` relative to the working directory. The model keeps one map keyed by the relative path, so it assumes the program runs from the project root.
- The randomness of `np.random.choice` is not modelled. The permutation comes from the `draw` parameter, which must give a permutation of `[0, n)`.
- Timing (`time.time`), the `print` diagnostics and `sys.exit` are left out. A missing file during `loadList` is the MissingFile error, and the loader never reaches it because it checks existence first.
- `np.genfromtxt` returns a one-dimensional array for a file with zero rows or one row. `data[:, 0]` would then fail. The model reads any table as a sequence of rows, so an empty or one-row cache file loads as zero or one pair.
- `np.genfromtxt` is modelled as follows: split the text at newlines, cut each line at the first `#`, strip spaces, carriage returns and newlines from both ends, skip empty lines, split at tabs. Rows of different widths are the CorruptFile error. Its handling of text encodings, of lone carriage returns as line ends (universal newlines) and its other options are left out.
- PathStrings.StripRoot: `str.replace(dataset_path, '')` removes every occurrence of the dataset directory. The model removes only a leading one and leaves other paths unchanged, so a path in which the directory name recurs later would be stripped differently.
- Path segments are split at `'/'`. The source splits at `os.sep`, so the model takes the POSIX separator; on Windows the keys would be taken from backslash-separated segments.
- Filenames.SaveThenLoad: it and the round trips built on it (`KittiDepth.SavedListsReload`, `KittiDepth.FreshThenCached`) require `SafeField` of every path, a sufficient condition rather than an exact one. A trailing space on an image path or a leading space on a depth path also survives, but such paths are outside the proved round trip.
- The image and depth `Size` constants, `max_depth = 80.0`, the raw-to-metres depth conversion, and all of `tensorflow/modules/validation.py` are left out. They are floating point and TensorFlow graph code.
- The atomic temp-file-and-rename write and the separate load-error taxonomy that a redesign might add are not in the code, and the model follows the code. A malformed cache file makes `genfromtxt` raise a ValueError, which is not caught. The model reports that as the CorruptFile error.
