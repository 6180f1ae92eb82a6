/**
 * `JobExecutionContextImpl`: the context handed to a job for one firing. It copies the
 * fired bundle, merges the job's and the trigger's data maps (the trigger's entries win),
 * and keeps the little state a running job and the scheduler share: a refire count, a
 * run time, a result and a private key/value side channel.
 */
module ExecutionContexts {
  import opened Wrappers
  import opened JavaLang
  import opened DataMaps

  /** The scheduler, the job instance and the calendar are opaque references here. */
  datatype SchedulerRef = SchedulerRef(id: nat)
  datatype JobRef = JobRef(id: nat)
  datatype CalendarRef = CalendarRef(id: nat)

  /** A `java.util.Date`, as milliseconds since the epoch. */
  type Instant = int64

  /** A `TriggerKey` or `JobKey`: name and group, as the caller supplied them. */
  datatype Key = Key(name: Option<string>, group: Option<string>)

  datatype Trigger = Trigger(key: Key, jobDataMap: JobDataMap)
  datatype JobDetail = JobDetail(key: Key, jobDataMap: JobDataMap)

  /** `TriggerFiredBundle`: what the store hands over when a trigger fires. */
  datatype FiredBundle = FiredBundle(
    trigger: Trigger,
    jobDetail: JobDetail,
    calendar: Option<CalendarRef>,
    recovering: bool,
    fireTime: Option<Instant>,
    scheduledFireTime: Option<Instant>,
    prevFireTime: Option<Instant>,
    nextFireTime: Option<Instant>)

  /** `Scheduler.FAILED_JOB_ORIGINAL_TRIGGER_NAME` and `..._GROUP`: where recovery records the original trigger. */
  const OriginalTriggerName := "QRTZ_FAILED_JOB_ORIG_TRIGGER_NAME"
  const OriginalTriggerGroup := "QRTZ_FAILED_JOB_ORIG_TRIGGER_GROUP"

  const NotRecovering := Exc(IllegalStateClass, Some("Not a recovering job"))

  class JobExecutionContext {
    // Copied from the bundle (and the two references) once; nothing changes them later.
    const scheduler: SchedulerRef
    const trigger: Trigger
    const jobDetail: JobDetail
    const job: JobRef
    const calendar: Option<CalendarRef>
    const recovering: bool
    const fireTime: Option<Instant>
    const scheduledFireTime: Option<Instant>
    const prevFireTime: Option<Instant>
    const nextFireTime: Option<Instant>

    /** The merged data map (`getMergedJobDataMap`). */
    var mergedJobDataMap: JobDataMap
    var refireCount: int32
    var jobRunTime: int64
    var result: Value
    /** The side channel behind `put`/`get`, separate from the merged map. */
    var data: map<Value, Value>

    constructor (scheduler: SchedulerRef, bundle: FiredBundle, job: JobRef)
      ensures this.scheduler == scheduler && this.job == job
      ensures trigger == bundle.trigger && jobDetail == bundle.jobDetail && calendar == bundle.calendar
      ensures recovering == bundle.recovering
      ensures fireTime == bundle.fireTime && scheduledFireTime == bundle.scheduledFireTime
      ensures prevFireTime == bundle.prevFireTime && nextFireTime == bundle.nextFireTime
      ensures mergedJobDataMap.Keys == bundle.jobDetail.jobDataMap.Keys + bundle.trigger.jobDataMap.Keys
      ensures forall k :: k in bundle.trigger.jobDataMap ==> mergedJobDataMap[k] == bundle.trigger.jobDataMap[k]
      ensures forall k :: k in bundle.jobDetail.jobDataMap && k !in bundle.trigger.jobDataMap ==>
                mergedJobDataMap[k] == bundle.jobDetail.jobDataMap[k]
      ensures refireCount == 0 && jobRunTime == -1 && result == Null && data == map[]
    {
      this.scheduler := scheduler;
      trigger := bundle.trigger;
      calendar := bundle.calendar;
      jobDetail := bundle.jobDetail;
      this.job := job;
      recovering := bundle.recovering;
      fireTime := bundle.fireTime;
      scheduledFireTime := bundle.scheduledFireTime;
      prevFireTime := bundle.prevFireTime;
      nextFireTime := bundle.nextFireTime;
      refireCount := 0;
      jobRunTime := -1;
      result := Null;
      data := map[];
      mergedJobDataMap := map[];
      new;
      mergedJobDataMap := PutAll(mergedJobDataMap, bundle.jobDetail.jobDataMap);
      mergedJobDataMap := PutAll(mergedJobDataMap, bundle.trigger.jobDataMap);
    }

    /**
     * `getRecoveringTriggerKey`: only a recovering context has one; it is read from the
     * two reserved entries of the merged map.
     */
    function RecoveringTriggerKey(): (r: Result<Key, Exc>)
      reads this
      ensures !recovering <==> r == Failure(NotRecovering)
      ensures r.Failure? && recovering ==> r.error == NotAString
      ensures recovering ==>
                (r.Success? <==> GetString(mergedJobDataMap, OriginalTriggerName).Success?
                                 && GetString(mergedJobDataMap, OriginalTriggerGroup).Success?)
      ensures forall n, g ::
                recovering
                && OriginalTriggerName in mergedJobDataMap && mergedJobDataMap[OriginalTriggerName] == Str(n)
                && OriginalTriggerGroup in mergedJobDataMap && mergedJobDataMap[OriginalTriggerGroup] == Str(g)
                ==> r == Success(Key(Some(n), Some(g)))
    {
      if recovering then
        var name :- GetString(mergedJobDataMap, OriginalTriggerName);
        var group :- GetString(mergedJobDataMap, OriginalTriggerGroup);
        Success(Key(name, group))
      else
        Failure(NotRecovering)
    }

    /** `incrementRefireCount`: one more, in Java `int` arithmetic. */
    method IncrementRefireCount()
      modifies this`refireCount
      ensures refireCount as int == if old(refireCount) as int < TwoTo31 - 1 then old(refireCount) as int + 1
                                    else -TwoTo31
    {
      refireCount := WrapInt32(refireCount as int + 1);
    }

    method SetResult(value: Value)
      modifies this`result
      ensures result == value
    {
      result := value;
    }

    method SetJobRunTime(time: int64)
      modifies this`jobRunTime
      ensures jobRunTime == time
    {
      jobRunTime := time;
    }

    /** `put`: records one entry in the side channel and touches nothing else. */
    method Put(key: Value, value: Value)
      modifies this`data
      ensures data == old(data)[key := value]
      ensures forall k :: k != key ==> Get(k) == old(Get(k))
      ensures Get(key) == value
    {
      data := data[key := value];
    }

    /** `get`: the side-channel entry, or null when there is none. */
    function Get(key: Value): Value
      reads this
    {
      if key in data then data[key] else Null
    }
  }
}
