/**
 * The background writer that saves a finished recording: every camera image
 * under `<episode>/imgs/`, then the driving log as `<episode>/driving_log.csv`,
 * then a call back to the controller. The file system is a store from path to
 * content that remembers the order of the writes made to it.
 */
module DiskWriting {
  import opened History

  /** An image array as produced by the camera converters; its pixels are not inspected. */
  datatype Image = Image(pixels: seq<int>)

  /** A line of the CSV file pandas writes: the header, or one row with its index label. */
  datatype CsvLine = Header(columns: seq<string>) | Record(index: nat, row: Row)

  /** What a file holds, piece by piece: an encoded image, or lines of text. */
  datatype Chunk = Pixels(image: Image) | Line(line: CsvLine)

  /** `driving_log.to_csv(path)`: the header line, then every row under its index label. */
  function CsvWithHeader(log: Table): (lines: seq<Chunk>)
    ensures |lines| == |log.rows| + 1 && lines[0] == Line(Header(log.columns))
    ensures lines[1..] == CsvRecords(log)
  {
    [Line(Header(log.columns))] + CsvRecords(log)
  }

  /** `driving_log.to_csv(path, mode="a", header=False)`: the rows alone. */
  function CsvRecords(log: Table): (lines: seq<Chunk>)
    ensures |lines| == |log.rows|
    ensures forall i :: 0 <= i < |log.rows| ==> lines[i] == Line(Record(i, log.rows[i]))
  {
    seq(|log.rows|, i requires 0 <= i < |log.rows| => Line(Record(i, log.rows[i])))
  }

  /** Where `run` stores an image: the file name inside the episode's `imgs` directory. */
  function ImagePath(episodePath: string, fileName: string): (p: string)
    ensures |p| == |episodePath| + 6 + |fileName|
    ensures p[..|episodePath| + 6] == episodePath + "/imgs/" && p[|episodePath| + 6..] == fileName
  {
    episodePath + "/imgs/" + fileName
  }

  /** Where `run` stores the log: `driving_log.csv` in the episode directory, never an image's path. */
  function CsvPath(episodePath: string): (p: string)
    ensures forall fileName :: p != ImagePath(episodePath, fileName)
  {
    var p := episodePath + "/driving_log.csv";
    assert forall fileName :: p[|episodePath| + 1] != ImagePath(episodePath, fileName)[|episodePath| + 1];
    p
  }

  /** Images written to different file names land in different files. */
  lemma ImagePathInjective(episodePath: string, name1: string, name2: string)
    requires name1 != name2
    ensures ImagePath(episodePath, name1) != ImagePath(episodePath, name2)
  {
    var prefix := episodePath + "/imgs/";
    assert ImagePath(episodePath, name1)[|prefix|..] == name1;
    assert ImagePath(episodePath, name2)[|prefix|..] == name2;
  }

  /** The paths the images are written to, in list order. */
  function ImagePaths(episodePath: string, images: seq<(string, Image)>): (paths: seq<string>)
    ensures |paths| == |images|
    ensures forall i :: 0 <= i < |images| ==> paths[i] == ImagePath(episodePath, images[i].0)
  {
    seq(|images|, i requires 0 <= i < |images| => ImagePath(episodePath, images[i].0))
  }

  /**
   * The files after the images are written one after the other; a later
   * image with the same file name replaces an earlier one.
   */
  function WithImages(files: map<string, seq<Chunk>>, episodePath: string, images: seq<(string, Image)>)
    : (after: map<string, seq<Chunk>>)
    ensures forall p :: p in files ==> p in after
    ensures forall i :: 0 <= i < |images| ==> ImagePath(episodePath, images[i].0) in after
  {
    if |images| == 0 then files
    else
      var n := |images| - 1;
      var front := WithImages(files, episodePath, images[..n]);
      assert ImagePaths(episodePath, images) == ImagePaths(episodePath, images[..n]) + [ImagePath(episodePath, images[n].0)];
      front[ImagePath(episodePath, images[n].0) := [Pixels(images[n].1)]]
  }

  /** Writing image `i` extends the paths written so far by its path and stores it there. */
  lemma WriteStep(files: map<string, seq<Chunk>>, episodePath: string, images: seq<(string, Image)>, i: nat)
    requires i < |images|
    ensures ImagePaths(episodePath, images[..i + 1]) == ImagePaths(episodePath, images[..i]) + [ImagePath(episodePath, images[i].0)]
    ensures WithImages(files, episodePath, images[..i + 1])
            == WithImages(files, episodePath, images[..i])[ImagePath(episodePath, images[i].0) := [Pixels(images[i].1)]]
  {
    assert images[..i + 1][..i] == images[..i];
  }

  /** Writing the images creates or replaces only the files at their paths; every other file is kept. */
  lemma {:induction false} WithImagesTouchesOnlyImagePaths(files: map<string, seq<Chunk>>, episodePath: string,
                                                           images: seq<(string, Image)>)
    ensures forall p :: p in WithImages(files, episodePath, images) && p !in files ==> p in ImagePaths(episodePath, images)
    ensures forall p :: p in files && p !in ImagePaths(episodePath, images) ==>
              WithImages(files, episodePath, images)[p] == files[p]
  {
    if |images| > 0 {
      var n := |images| - 1;
      WithImagesTouchesOnlyImagePaths(files, episodePath, images[..n]);
      WriteStep(files, episodePath, images, n);
      assert images[..n + 1] == images;
    }
  }

  /** When the file names are distinct, every image is found at its own path afterwards. */
  lemma {:induction false} DistinctNamesAllPersisted(files: map<string, seq<Chunk>>, episodePath: string,
                                                     images: seq<(string, Image)>, i: nat)
    requires forall a, b :: 0 <= a < b < |images| ==> images[a].0 != images[b].0
    requires i < |images|
    ensures WithImages(files, episodePath, images)[ImagePath(episodePath, images[i].0)] == [Pixels(images[i].1)]
  {
    var n := |images| - 1;
    if i < n {
      DistinctNamesAllPersisted(files, episodePath, images[..n], i);
      ImagePathInjective(episodePath, images[i].0, images[n].0);
    }
  }

  /** The CSV after the log is saved: a new file gets the header, an existing one only the rows. */
  function WithCsv(files: map<string, seq<Chunk>>, episodePath: string, log: Table)
    : (after: map<string, seq<Chunk>>)
    ensures CsvPath(episodePath) in after
    ensures forall p :: p in files && p != CsvPath(episodePath) ==> p in after && after[p] == files[p]
  {
    var path := CsvPath(episodePath);
    if path !in files then files[path := CsvWithHeader(log)]
    else files[path := files[path] + CsvRecords(log)]
  }

  /** `progress` after image `i` of `n` has been written. */
  function Progress(i: nat, n: nat): (p: real)
    requires i < n
    ensures 0.0 < p <= 1.0
    ensures p == 1.0 <==> i == n - 1
  {
    (i + 1) as real / n as real
  }

  /** Each write moves the progress bar forward. */
  lemma ProgressIncreases(i: nat, j: nat, n: nat)
    requires i < j < n
    ensures Progress(i, n) < Progress(j, n)
  {
    var nr := n as real;
    assert (i + 1) as real < (j + 1) as real;
    assert (i + 1) as real / nr < (j + 1) as real / nr;
  }

  /** The file system, with the order in which files were written. */
  class FileStore {
    var files: map<string, seq<Chunk>>
    /** The path of every write, oldest first. */
    var writes: seq<string>

    constructor (files: map<string, seq<Chunk>>)
      ensures this.files == files && writes == []
    {
      this.files := files;
      writes := [];
    }

    /** `cv2.imwrite(path, image)`: the file holds exactly the image. */
    method WriteImage(path: string, image: Image)
      modifies this
      ensures files == old(files)[path := [Pixels(image)]]
      ensures writes == old(writes) + [path]
    {
      files := files[path := [Pixels(image)]];
      writes := writes + [path];
    }

    /** `os.path.isfile(path)`. */
    function IsFile(path: string): (b: bool)
      reads this
      ensures b <==> path in files
    {
      path in files
    }

    /** `to_csv(path, mode="a", header=False)`, or a fresh `to_csv(path)` with `header`. */
    method WriteCsv(path: string, log: Table, append: bool)
      modifies this
      ensures files == old(files)[path :=
        if append then (if path in old(files) then old(files)[path] else []) + CsvRecords(log)
        else CsvWithHeader(log)]
      ensures writes == old(writes) + [path]
    {
      if append {
        var before := if path in files then files[path] else [];
        files := files[path := before + CsvRecords(log)];
      } else {
        files := files[path := CsvWithHeader(log)];
      }
      writes := writes + [path];
    }
  }

  class DiskWriter {
    /** Share of the images written so far, read by the progress bar. */
    var progress: real
    const images: seq<(string, Image)>
    const drivingLog: Table
    const episodePath: string
    /** Whether an `on_complete` callback was supplied. */
    const hasOnComplete: bool

    /** `DiskWriter(episode_path, images, driving_log, on_complete=None)`. */
    constructor (episodePath: string, images: seq<(string, Image)>, drivingLog: Table, hasOnComplete: bool)
      ensures progress == 0.0
      ensures this.episodePath == episodePath && this.images == images
      ensures this.drivingLog == drivingLog && this.hasOnComplete == hasOnComplete
    {
      progress := 0.0;
      this.images, this.drivingLog := images, drivingLog;
      this.episodePath, this.hasOnComplete := episodePath, hasOnComplete;
    }

    /**
     * `run`: write the images in list order, setting `progress` after each;
     * then save the log, with a header only if the CSV file is new; then
     * report whether `on_complete` is called. `progressSeen` holds the values
     * `progress` takes, in order.
     */
    method Run(store: FileStore) returns (progressSeen: seq<real>, callsBack: bool)
      modifies this`progress, store
      ensures store.writes == old(store.writes) + ImagePaths(episodePath, images) + [CsvPath(episodePath)]
      ensures store.files == WithCsv(WithImages(old(store.files), episodePath, images), episodePath, drivingLog)
      ensures |progressSeen| == |images|
      ensures forall i :: 0 <= i < |images| ==> progressSeen[i] == Progress(i, |images|)
      ensures progress == if |images| == 0 then old(progress) else 1.0
      ensures callsBack == hasOnComplete
    {
      progressSeen := WriteImages(store);
      var csvPath := CsvPath(episodePath);
      store.WriteCsv(csvPath, drivingLog, store.IsFile(csvPath));
      callsBack := hasOnComplete;
    }

    /** The image loop of `run`. */
    method WriteImages(store: FileStore) returns (progressSeen: seq<real>)
      modifies this`progress, store
      ensures store.writes == old(store.writes) + ImagePaths(episodePath, images)
      ensures store.files == WithImages(old(store.files), episodePath, images)
      ensures |progressSeen| == |images|
      ensures forall i :: 0 <= i < |images| ==> progressSeen[i] == Progress(i, |images|)
      ensures progress == if |images| == 0 then old(progress) else 1.0
    {
      var n := |images|;
      progressSeen := [];
      var i := 0;
      while i < n
        invariant 0 <= i <= n
        invariant store.files == WithImages(old(store.files), episodePath, images[..i])
        invariant store.writes == old(store.writes) + ImagePaths(episodePath, images[..i])
        invariant |progressSeen| == i
        invariant forall k :: 0 <= k < i ==> progressSeen[k] == Progress(k, n)
        invariant progress == if i == 0 then old(progress) else Progress(i - 1, n)
      {
        var (fileName, image) := images[i];
        store.WriteImage(ImagePath(episodePath, fileName), image);
        progress := (i + 1) as real / n as real;
        progressSeen := progressSeen + [progress];
        WriteStep(old(store.files), episodePath, images, i);
        i := i + 1;
      }
      assert images[..n] == images;
    }
  }

  /**
   * Saving two logs into the same episode directory one after the other gives
   * one header and then the rows of both, in order.
   */
  lemma TwoSavesOneHeader(files: map<string, seq<Chunk>>, episodePath: string, first: Table, second: Table)
    requires CsvPath(episodePath) !in files
    ensures WithCsv(WithCsv(files, episodePath, first), episodePath, second)[CsvPath(episodePath)]
            == [Line(Header(first.columns))] + CsvRecords(first) + CsvRecords(second)
  {
  }
}
