/**
 * The option handling of the Earth Engine helpers in aces/utils.py: which
 * session a call to `initialize_session` opens, whether
 * `export_training_data` exports, and what every parameter of the export
 * and sampling requests resolves to. The Earth Engine calls themselves are
 * returned as request values.
 */
module EEUtils {
  import opened Wrappers

  /** A keyword argument's value, as far as the helpers pass it on. */
  datatype Value =
    | Str(s: string)
    | Int(i: int)
    | Real(r: real)
    | Bool(b: bool)
    | Names(names: seq<string>)

  /**
   * `**kwargs`: a key that is absent is not in the map; a key given as
   * Python's `None` maps to `None`.
   */
  type Kwargs = map<string, Option<Value>>

  /** Python's `kwargs.get(key, default)`. */
  function Get(kwargs: Kwargs, key: string, default: Option<Value>): Option<Value>
  {
    if key in kwargs then kwargs[key] else default
  }

  /**
   * A parameter with a default value in the signature: `None` when the
   * caller leaves it out, `Some(v)` when the caller passes `v`.
   */
  function ArgOr<T>(arg: Option<T>, default: T): T
  {
    if arg.Some? then arg.value else default
  }

  /**
   * Python's truth value of an argument: None, False, zero and an empty
   * string or list are false, everything else is true.
   */
  predicate Truthy(v: Option<Value>)
  {
    match v
    case None => false
    case Some(Str(s)) => |s| > 0
    case Some(Int(i)) => i != 0
    case Some(Real(r)) => r != 0.0
    case Some(Bool(b)) => b
    case Some(Names(names)) => |names| > 0
  }

  /** A feature collection, known here by the property names of its first feature. */
  datatype Collection = Collection(id: string, firstPropertyNames: seq<string>)

  /** An image, passed through unchanged. */
  datatype Image = Image(id: string)

  const HighVolumeUrl: string := "https://earthengine-highvolume.googleapis.com"

  /**
   * The call to `ee.Initialize`: the service-account credentials built from
   * the key file, if any, and the endpoint URL, if one is given.
   */
  datatype Session = Session(credentialsKey: Option<string>, optUrl: Option<string>)

  /** The defaults of `initialize_session`'s signature. */
  const DefaultUseHighVolume: bool := false

  /**
   * Lines 38-56: the four ways the session is opened. `useHighVolume` is
   * None when the caller leaves it out, and then it is False. Leaving out
   * `key` and passing None are the same call, so `key` is one `Option`.
   */
  function InitializeSession(useHighVolume: Option<bool>, key: Option<string>): (s: Session)
    ensures s.optUrl.Some? <==> useHighVolume == Some(true)
    ensures s.optUrl.Some? ==> s.optUrl.value == HighVolumeUrl
    ensures s.credentialsKey.Some? <==> key.Some?
    ensures key.Some? ==> s.credentialsKey == key
  {
    var highVolume := ArgOr(useHighVolume, DefaultUseHighVolume);
    if key.None? then
      if highVolume then Session(None, Some(HighVolumeUrl)) else Session(None, None)
    else
      if highVolume then Session(key, Some(HighVolumeUrl)) else Session(key, None)
  }

  /** `initialize_session()` with no arguments opens the default session on the default endpoint. */
  lemma InitializeSessionDefaults()
    ensures InitializeSession(None, None) == Session(None, None)
    ensures InitializeSession(None, None) == InitializeSession(Some(false), None)
  {
  }

  /**
   * Calls that resolve to different arguments open different sessions: each
   * of the four cases is its own.
   */
  lemma InitializeSessionInjective(h1: Option<bool>, k1: Option<string>, h2: Option<bool>, k2: Option<string>)
    requires InitializeSession(h1, k1) == InitializeSession(h2, k2)
    ensures ArgOr(h1, DefaultUseHighVolume) == ArgOr(h2, DefaultUseHighVolume) && k1 == k2
  {
  }

  const DefaultDescription: string := "myExportTableTask"
  const DefaultBucket: string := "myBucket"
  const DefaultFileFormat: string := "TFRecord"

  /** The arguments of `ee.batch.Export.table.toCloudStorage`. */
  datatype TableExport = TableExport(
    collection: Collection,
    description: Option<Value>,
    fileNamePrefix: Option<Value>,
    bucket: Option<Value>,
    fileFormat: Option<Value>,
    selectors: Option<Value>)

  /** The export task and whether `start` is called on it. */
  datatype ExportPlan = ExportPlan(task: TableExport, started: bool)

  /** Python's NotImplementedError for an export type other than cloud storage. */
  datatype ExportError = NotImplemented

  /**
   * Lines 93-103. The description, bucket, format and selectors take their
   * defaults only when their key is absent, so an explicit None goes through;
   * the file prefix falls back to the description also when it is None.
   */
  function ExportToCloudStorage(collection: Collection, startTraining: Option<Value>, kwargs: Kwargs): (p: ExportPlan)
    ensures p.task.collection == collection && (p.started <==> Truthy(startTraining))
    ensures p.task.description ==
              (if "description" in kwargs then kwargs["description"] else Some(Str(DefaultDescription)))
    ensures "file_prefix" in kwargs && kwargs["file_prefix"].Some? ==>
              p.task.fileNamePrefix == kwargs["file_prefix"]
    ensures !("file_prefix" in kwargs && kwargs["file_prefix"].Some?) ==>
              p.task.fileNamePrefix == p.task.description
    ensures p.task.bucket == (if "bucket" in kwargs then kwargs["bucket"] else Some(Str(DefaultBucket)))
    ensures p.task.fileFormat ==
              (if "file_format" in kwargs then kwargs["file_format"] else Some(Str(DefaultFileFormat)))
    ensures p.task.selectors ==
              (if "selectors" in kwargs then kwargs["selectors"] else Some(Names(collection.firstPropertyNames)))
  {
    var description := Get(kwargs, "description", Some(Str(DefaultDescription)));
    var prefix := Get(kwargs, "file_prefix", None);
    var task := TableExport(
      collection,
      description,
      if prefix.Some? then prefix else description,
      Get(kwargs, "bucket", Some(Str(DefaultBucket))),
      Get(kwargs, "file_format", Some(Str(DefaultFileFormat))),
      Get(kwargs, "selectors", Some(Names(collection.firstPropertyNames))));
    ExportPlan(task, Truthy(startTraining))
  }

  /** The defaults of `export_training_data`'s signature. */
  const DefaultExportType: Value := Str("cloud")
  const DefaultStartTraining: Value := Bool(true)

  /**
   * Lines 85-89: only the cloud export type is supported. `exportType` and
   * `startTraining` are None when the caller leaves them out, and then they
   * are "cloud" and True; `Some(None)` is an explicit Python None. The type
   * is compared with `==`, so any other value raises, and the start flag is
   * tested for its truth value, so an explicit None or 0 does not start.
   */
  function ExportTrainingData(collection: Collection, exportType: Option<Option<Value>>,
                              startTraining: Option<Option<Value>>, params: Kwargs): (r: Result<ExportPlan, ExportError>)
    ensures r.Ok? <==> exportType.None? || exportType == Some(Some(Str("cloud")))
    ensures r.Ok? ==> r.value.task == ExportToCloudStorage(collection, Some(DefaultStartTraining), params).task
    ensures r.Ok? ==> (r.value.started <==> startTraining.None? || Truthy(startTraining.value))
  {
    if ArgOr(exportType, Some(DefaultExportType)) == Some(Str("cloud")) then
      Ok(ExportToCloudStorage(collection, ArgOr(startTraining, Some(DefaultStartTraining)), params))
    else Err(NotImplemented)
  }

  /**
   * Passing `start_training=None` is not leaving it out: the task is
   * created but not started.
   */
  lemma ExplicitNoneDoesNotStart(collection: Collection, params: Kwargs)
    ensures var r := ExportTrainingData(collection, None, Some(None), params);
            r.Ok? && !r.value.started
    ensures var r := ExportTrainingData(collection, None, None, params);
            r.Ok? && r.value.started
    ensures ExportTrainingData(collection, Some(None), None, params) == Err(NotImplemented)
  {
  }

  /** `export_training_data(collection)` exports to cloud storage with every default, and starts the task. */
  lemma ExportTrainingDataDefaults(collection: Collection)
    ensures var r := ExportTrainingData(collection, None, None, map[]);
            r.Ok? && r.value.started && r.value.task.collection == collection
            && r.value.task.description == Some(Str(DefaultDescription))
            && r.value.task.fileNamePrefix == Some(Str(DefaultDescription))
            && r.value.task.bucket == Some(Str(DefaultBucket))
            && r.value.task.fileFormat == Some(Str(DefaultFileFormat))
            && r.value.task.selectors == Some(Names(collection.firstPropertyNames))
  {
    ExportDefaults(collection, Some(DefaultStartTraining));
  }

  /** With no keyword arguments every parameter takes its default. */
  lemma ExportDefaults(collection: Collection, startTraining: Option<Value>)
    ensures var t := ExportToCloudStorage(collection, startTraining, map[]).task;
            t.description == Some(Str(DefaultDescription))
            && t.fileNamePrefix == Some(Str(DefaultDescription))
            && t.bucket == Some(Str(DefaultBucket))
            && t.fileFormat == Some(Str(DefaultFileFormat))
            && t.selectors == Some(Names(collection.firstPropertyNames))
  {
  }

  /**
   * An explicit None is treated two ways: for the file prefix it means the
   * description, for the bucket and the file format it is passed on as None.
   */
  lemma ExplicitNone(collection: Collection, startTraining: Option<Value>, kwargs: Kwargs)
    requires "file_prefix" in kwargs && kwargs["file_prefix"] == None
    requires "bucket" in kwargs && kwargs["bucket"] == None
    requires "file_format" in kwargs && kwargs["file_format"] == None
    requires "description" !in kwargs
    ensures var t := ExportToCloudStorage(collection, startTraining, kwargs).task;
            t.fileNamePrefix == Some(Str(DefaultDescription)) && t.bucket == None && t.fileFormat == None
  {
  }

  /** The file prefix is None only when the description was given as None. */
  lemma PrefixPresent(collection: Collection, startTraining: Option<Value>, kwargs: Kwargs)
    ensures ExportToCloudStorage(collection, startTraining, kwargs).task.fileNamePrefix.None? <==>
              "description" in kwargs && kwargs["description"].None?
              && !("file_prefix" in kwargs && kwargs["file_prefix"].Some?)
  {
  }

  /** The arguments of `image.sampleRegions`. */
  datatype SampleRequest = SampleRequest(
    image: Image,
    collection: Collection,
    properties: Option<Value>,
    scale: Option<Value>,
    geometries: Option<Value>,
    tileScale: Option<Value>)

  /** Lines 106-113: every parameter defaults only when its key is absent. */
  function SampleImageByCollection(image: Image, collection: Collection, kwargs: Kwargs): (r: SampleRequest)
    ensures r.image == image && r.collection == collection
    ensures r.properties ==
              (if "properties" in kwargs then kwargs["properties"] else Some(Names(collection.firstPropertyNames)))
    ensures r.scale == (if "scale" in kwargs then kwargs["scale"] else None)
    ensures r.geometries == (if "geometries" in kwargs then kwargs["geometries"] else Some(Bool(false)))
    ensures r.tileScale == (if "tile_scale" in kwargs then kwargs["tile_scale"] else Some(Int(1)))
  {
    SampleRequest(
      image,
      collection,
      Get(kwargs, "properties", Some(Names(collection.firstPropertyNames))),
      Get(kwargs, "scale", None),
      Get(kwargs, "geometries", Some(Bool(false))),
      Get(kwargs, "tile_scale", Some(Int(1))))
  }

  /** Keys the helper does not know are ignored: only its four keys matter. */
  lemma SampleIgnoresOtherKeys(image: Image, collection: Collection, kwargs: Kwargs, key: string, v: Option<Value>)
    requires key !in {"properties", "scale", "geometries", "tile_scale"}
    ensures SampleImageByCollection(image, collection, kwargs[key := v])
            == SampleImageByCollection(image, collection, kwargs)
  {
  }
}
