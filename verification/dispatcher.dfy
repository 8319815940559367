/** The bucket-arrival handler: it turns an S3 "object created" notification
    into one AWS Batch job submission.

    The handler reads the bucket name and object key of the first record of
    the notification, builds the three container environment variables the
    job reads, derives the job name from the key, and submits the job to the
    configured queue with the configured job definition. The Batch client is
    a parameter `submit`; whatever it returns on success is passed back
    untouched, and whatever it raises is raised again.
 */
module Dispatcher {
  import opened JobNames

  datatype Option<T> = None | Some(value: T)

  datatype Result<T, E> = Ok(value: T) | Err(error: E)

  /** The part of one notification record the handler reads:
      `s3.bucket.name` and `s3.object.key`. */
  datatype Record = Record(bucketName: string, objectKey: string)

  /** A notification: its `Records` list. */
  datatype Event = Event(records: seq<Record>)

  /** The handler's process environment: OUTPUT_BUCKET, JOBQUEUE and JOBDEF. */
  datatype Config = Config(outputBucket: string, jobQueue: string, jobDefinition: string)

  /** One `{name, value}` entry of a container environment override. */
  datatype EnvVar = EnvVar(name: string, value: string)

  /** The arguments of the Batch `submit_job` call. The call passes the
      environment nested, as `containerOverrides={"environment": ...}`; here
      it is the field `environment`. */
  datatype SubmitRequest = SubmitRequest(
    jobName: string,
    jobQueue: string,
    jobDefinition: string,
    environment: seq<EnvVar>)

  /** The handler's return value; `job` is the Batch reply, whatever it is. */
  datatype Response<J> = Response(status: string, key: string, job: J)

  /** Why the handler raised: the notification has no record, or the submit
      call raised `cause`. */
  datatype Failure<E> = NoRecord | Raised(cause: E)

  const OutputBucketVar: string := "S3_OUTPUT_BUCKET"
  const InputBucketVar: string := "S3_INPUT_BUCKET"
  const InputObjectVar: string := "S3_INPUT_OBJECT"
  const SuccessStatus: string := "success"

  /** The value of the first entry named `name`, as a container sees it. */
  function Lookup(env: seq<EnvVar>, name: string): Option<string> {
    if env == [] then None
    else if env[0].name == name then Some(env[0].value)
    else Lookup(env[1..], name)
  }

  /** The environment names of `env`, in order. */
  function Names(env: seq<EnvVar>): seq<string> {
    if env == [] then [] else [env[0].name] + Names(env[1..])
  }

  /** The environment handed to the job: where to write output, and which
      bucket and key arrived. The key is passed raw, not sanitised. */
  function JobEnvironment(config: Config, bucket: string, key: string): (env: seq<EnvVar>)
    ensures Names(env) == [OutputBucketVar, InputBucketVar, InputObjectVar]
    ensures Lookup(env, OutputBucketVar) == Some(config.outputBucket)
    ensures Lookup(env, InputBucketVar) == Some(bucket)
    ensures Lookup(env, InputObjectVar) == Some(key)
    ensures forall name :: Lookup(env, name).Some? <==>
      name == OutputBucketVar || name == InputBucketVar || name == InputObjectVar
  {
    var env := [ EnvVar(OutputBucketVar, config.outputBucket),
                 EnvVar(InputBucketVar, bucket),
                 EnvVar(InputObjectVar, key) ];
    assert OutputBucketVar[3] != InputBucketVar[3] && OutputBucketVar[3] != InputObjectVar[3];
    assert InputBucketVar[9] != InputObjectVar[9];
    var tail1, tail2 := env[1..], env[1..][1..];
    assert tail2[1..] == [];
    assert Names(tail2) == [InputObjectVar];
    assert Names(tail1) == [InputBucketVar, InputObjectVar];
    assert forall name :: Lookup(tail2, name) == if name == InputObjectVar then Some(key) else None;
    assert forall name :: Lookup(tail1, name) == (if name == InputBucketVar then Some(bucket) else Lookup(tail2, name));
    env
  }

  /** The `submit_job` arguments for one record. */
  function RequestFor(record: Record, config: Config): (req: SubmitRequest)
    ensures req.jobName == JobName(record.objectKey)
    ensures AllAllowed(req.jobName) && |req.jobName| <= MaxJobNameLength
    ensures req.jobQueue == config.jobQueue && req.jobDefinition == config.jobDefinition
    ensures Lookup(req.environment, OutputBucketVar) == Some(config.outputBucket)
    ensures Lookup(req.environment, InputBucketVar) == Some(record.bucketName)
    ensures Lookup(req.environment, InputObjectVar) == Some(record.objectKey)
    ensures Names(req.environment) == [OutputBucketVar, InputBucketVar, InputObjectVar]
  {
    SubmitRequest(
      JobName(record.objectKey),
      config.jobQueue,
      config.jobDefinition,
      JobEnvironment(config, record.bucketName, record.objectKey))
  }

  /** The handler. Only the first record is read; a notification without
      records fails before anything is submitted. */
  function Handle<J, E>(event: Event, config: Config, submit: SubmitRequest -> Result<J, E>)
    : (r: Result<Response<J>, Failure<E>>)
    ensures event.records == [] ==> r == Err(NoRecord)
    ensures event.records != [] ==>
      var reply := submit(RequestFor(event.records[0], config));
      && (r.Ok? <==> reply.Ok?)
      && (r.Ok? ==> r.value == Response(SuccessStatus, event.records[0].objectKey, reply.value))
      && (r.Err? ==> r.error == Raised(reply.error))
  {
    if event.records == [] then Err(NoRecord)
    else
      var record := event.records[0];
      match submit(RequestFor(record, config))
      case Ok(job) => Ok(Response(SuccessStatus, record.objectKey, job))
      case Err(e) => Err(Raised(e))
  }

  // ---------------------------------------------------------------------------
  // Properties of the handler
  // ---------------------------------------------------------------------------

  /** Records after the first one are never read. */
  lemma HandleReadsFirstRecordOnly<J, E>(
    e1: Event, e2: Event, config: Config, submit: SubmitRequest -> Result<J, E>)
    requires e1.records != [] && e2.records != []
    requires e1.records[0] == e2.records[0]
    ensures Handle(e1, config, submit) == Handle(e2, config, submit)
  {
  }

  /** A failing submit call is never turned into a success or a different
      error: its error comes back unchanged. */
  lemma HandleReraisesSubmitError<J, E>(
    event: Event, config: Config, submit: SubmitRequest -> Result<J, E>, cause: E)
    requires event.records != []
    requires submit(RequestFor(event.records[0], config)) == Err(cause)
    ensures Handle(event, config, submit) == Err(Raised(cause))
  {
  }

  /** An empty object key is not rejected: the job is submitted with an
      empty name, and the empty key is still passed to the job. */
  lemma HandleEmptyKey<J, E>(
    event: Event, config: Config, submit: SubmitRequest -> Result<J, E>)
    requires event.records != [] && event.records[0].objectKey == []
    ensures RequestFor(event.records[0], config).jobName == []
    ensures Lookup(RequestFor(event.records[0], config).environment, InputObjectVar) == Some([])
    ensures Handle(event, config, submit) != Err(NoRecord)
  {
  }

  /** A CSV upload under `reports/` in `in-bkt`, with output to `out-bkt`. */
  lemma ScenarioReportsUpload()
    ensures RequestFor(Record("in-bkt", "reports/jan 2024.csv"), Config("out-bkt", "q1", "jd1")) == SubmitRequest(
      "reports_jan_2024_csv", "q1", "jd1",
      [ EnvVar("S3_OUTPUT_BUCKET", "out-bkt"),
        EnvVar("S3_INPUT_BUCKET", "in-bkt"),
        EnvVar("S3_INPUT_OBJECT", "reports/jan 2024.csv") ])
  {
    ExampleReportsKey();
  }
}
