/** `Record` and its durable append, run while other processes append to the same objects. */
module AuditClient {
  import opened Wrappers
  import AuditLog
  import AuditWriter

  datatype StorageError = NotExist | PreconditionFailed | Unavailable

  /** What other processes do between two calls: create daily objects and append to them. */
  ghost predicate OnlyGrew(before: map<int, string>, after: map<int, string>) {
    before.Keys <= after.Keys && forall day :: day in before ==> before[day] <= after[day]
  }

  /** The object gained exactly this line at one place, after everything it held before. */
  ghost predicate GainedLine(before: map<int, string>, after: map<int, string>, day: int, line: string) {
    (exists head, tail :: GainedBetween(before, after, day, line, head, tail)) && OthersGrew(before, after, day)
  }

  ghost predicate GainedBetween(before: map<int, string>, after: map<int, string>, day: int, line: string,
                                head: string, tail: string) {
    && day in after && after[day] == head + line + "\n" + tail
    && (day in before ==> before[day] <= head)
  }

  ghost predicate OthersGrew(before: map<int, string>, after: map<int, string>, day: int) {
    before.Keys <= after.Keys && forall d :: d in before && d != day ==> before[d] <= after[d]
  }

  /** The object starts over with this line: what another process had created since is gone. */
  ghost predicate StartedOver(before: map<int, string>, after: map<int, string>, day: int, line: string) {
    && day !in before && day in after && line + "\n" <= after[day]
    && OthersGrew(before, after, day)
  }

  lemma GrewTransitive(a: map<int, string>, b: map<int, string>, c: map<int, string>)
    requires OnlyGrew(a, b) && OnlyGrew(b, c)
    ensures OnlyGrew(a, c)
  {
  }

  lemma Gained(before: map<int, string>, read: map<int, string>, after: map<int, string>, day: int, line: string,
               head: string)
    requires OnlyGrew(before, read) && (day in read ==> head == read[day])
    requires OnlyGrew(read[day := AuditLog.Appended(head, line)], after)
    ensures GainedLine(before, after, day, line)
  {
    var written := AuditLog.Appended(head, line);
    assert written <= after[day];
    assert after[day] == written + after[day][|written|..];
    assert GainedBetween(before, after, day, line, head, after[day][|written|..]);
  }

  class Storage {
    var objects: map<int, string>
    const etags: string -> string

    constructor (objects: map<int, string>, etags: string -> string)
      ensures this.objects == objects && this.etags == etags
    {
      this.objects := objects;
      this.etags := etags;
    }

    /** Other writers may have created this day's object or appended to it. */
    method Interfere(day: int)
      modifies this`objects
      ensures OnlyGrew(old(objects), objects)
    {
      var others: string, create: bool := *, *;
      if day in objects {
        objects := objects[day := objects[day] + others];
      } else if create {
        objects := objects[day := others];
      }
    }

    method StatMeta(day: int) returns (etag: Result<string, StorageError>)
      modifies this`objects
      ensures OnlyGrew(old(objects), objects)
      ensures etag.Ok? ==> day in objects && etag.value == etags(objects[day])
      ensures etag == Err(NotExist) ==> day !in objects
      ensures etag != Err(PreconditionFailed)
    {
      Interfere(day);
      var fails: bool := *;
      etag := if fails then Err(Unavailable) else if day in objects then Ok(etags(objects[day])) else Err(NotExist);
    }

    method GetObject(day: int) returns (data: Result<string, StorageError>)
      modifies this`objects
      ensures OnlyGrew(old(objects), objects)
      ensures data.Ok? ==> day in objects && data.value == objects[day]
      ensures data == Err(NotExist) ==> day !in objects
      ensures data != Err(PreconditionFailed)
    {
      Interfere(day);
      var fails: bool := *;
      data := if fails then Err(Unavailable) else if day in objects then Ok(objects[day]) else Err(NotExist);
    }

    /** A plain put; a failed one may still have taken effect. */
    method PutObject(day: int, data: string)
      returns (failure: Option<StorageError>, ghost found: map<int, string>, ghost applied: bool)
      modifies this`objects
      ensures OnlyGrew(old(objects), found) && (failure == None ==> applied) && failure != Some(PreconditionFailed)
      ensures objects == if applied then found[day := data] else found
    {
      Interfere(day);
      found := objects;
      var stored: bool, reported: bool := *, *;
      applied := stored;
      if stored {
        objects := objects[day := data];
      }
      failure := if stored && reported then None else Some(Unavailable);
    }

    /** A conditional put: applied only if the current ETag is the expected one. */
    method PutObjectIfMatch(day: int, data: string, etag: string)
      returns (failure: Option<StorageError>, ghost found: map<int, string>, ghost applied: bool)
      modifies this`objects
      ensures OnlyGrew(old(objects), found) && (failure == None ==> applied)
      ensures objects == if applied then found[day := data] else found
      ensures applied ==> day in found && etags(found[day]) == etag
      ensures failure == Some(PreconditionFailed) ==> !applied
    {
      Interfere(day);
      found := objects;
      applied := false;
      if day !in objects || etags(objects[day]) != etag {
        return Some(PreconditionFailed), found, applied;
      }
      var stored: bool, reported: bool := *, *;
      applied := stored;
      if stored {
        objects := objects[day := data];
      }
      failure := if stored && reported then None else Some(Unavailable);
    }
  }

  class Client {
    const sc: Storage?
    const codec: AuditLog.Codec
    var logged: seq<AuditLog.Event>

    constructor (sc: Storage?, codec: AuditLog.Codec)
      ensures this.sc == sc && this.codec == codec && logged == []
    {
      this.sc := sc;
      this.codec := codec;
      logged := [];
    }

    /**
     `appendJSONL` beside processes that create the day's object and append to it.
     Success adds the line exactly once after everything read, failure at most
     once; only where the object did not exist at first and another process made
     it meanwhile, the put without precondition may start it over. A conflict is
     reported only after four tries.
     */
    method AppendJSONL(event: AuditLog.Event)
      returns (failure: Option<StorageError>, ghost lost: string, ghost tries: nat)
      requires sc != null && AuditWriter.GoodETags(sc.etags)
      modifies sc`objects
      ensures 1 <= tries <= 4 && (failure == Some(PreconditionFailed) ==> tries == 4)
      ensures var day, line := AuditLog.DayOf(event.when), codec.encode(event);
              && (day in old(sc.objects) ==> lost == "")
              && (lost != "" ==> StartedOver(old(sc.objects), sc.objects, day, line))
              && (lost == "" && failure == None ==> GainedLine(old(sc.objects), sc.objects, day, line))
              && (lost == "" && failure != None ==>
                    || OnlyGrew(old(sc.objects), sc.objects)
                    || GainedLine(old(sc.objects), sc.objects, day, line))
    {
      var line := codec.encode(event);
      var day := AuditLog.DayOf(event.when);
      var attempt := 0;
      lost := "";
      tries := 1;
      while true
        invariant 0 <= attempt <= |AuditWriter.BACKOFFS| && tries == attempt + 1
        invariant OnlyGrew(old(sc.objects), sc.objects) && lost == ""
        decreases |AuditWriter.BACKOFFS| - attempt
      {
        if attempt > 0 {
          var delay := AuditWriter.BACKOFFS[attempt - 1];
          var cancelled: bool := *;
          if cancelled {
            return Some(Unavailable), lost, tries;
          }
        }
        var existing := "";
        var etag := "";
        ghost var start := sc.objects;
        var meta := sc.StatMeta(day);
        ghost var atStat := sc.objects;
        GrewTransitive(old(sc.objects), start, atStat);
        if meta.Ok? {
          etag := meta.value;
          var data := sc.GetObject(day);
          GrewTransitive(old(sc.objects), atStat, sc.objects);
          if data.Ok? {
            existing := data.value;
          } else if data.error == NotExist {
            etag := "";
          } else {
            return Some(data.error), lost, tries;
          }
        } else if meta.error != NotExist {
          return Some(meta.error), lost, tries;
        }
        ghost var atGet := sc.objects;
        var content := existing + line + "\n";
        if etag == "" {
          ghost var found, applied;
          failure, found, applied := sc.PutObject(day, content);
          GrewTransitive(old(sc.objects), atGet, found);
          if applied && day in found {
            lost := found[day];
          }
          if applied && lost == "" {
            Gained(old(sc.objects), found, sc.objects, day, line, "");
          }
          return;
        }
        ghost var found, applied;
        failure, found, applied := sc.PutObjectIfMatch(day, content, etag);
        GrewTransitive(old(sc.objects), atGet, found);
        if applied {
          assert atStat[day] <= existing <= found[day];
          assert sc.etags(atStat[day]) == sc.etags(found[day]);
          assert existing == found[day];
          Gained(old(sc.objects), found, sc.objects, day, line, existing);
        }
        if failure == Some(PreconditionFailed) && attempt < |AuditWriter.BACKOFFS| {
          attempt := attempt + 1;
          tries := tries + 1;
        } else {
          return;
        }
      }
    }

    /** `Record`: the log line always, the durable line at most once, and never an error. */
    method Record(event: AuditLog.Event, now: int)
      requires sc != null ==> AuditWriter.GoodETags(sc.etags)
      modifies this`logged
      modifies if sc != null then {sc} else {}
      ensures var stamped := if event.when == 0 then event.(when := now) else event;
              && logged == old(logged) + [stamped]
              && (sc != null ==>
                    || OnlyGrew(old(sc.objects), sc.objects)
                    || GainedLine(old(sc.objects), sc.objects, AuditLog.DayOf(stamped.when), codec.encode(stamped))
                    || StartedOver(old(sc.objects), sc.objects, AuditLog.DayOf(stamped.when), codec.encode(stamped)))
    {
      var stamped := event;
      if stamped.when == 0 {
        stamped := stamped.(when := now);
      }
      logged := logged + [stamped];
      if sc == null {
        return;
      }
      var failure, _, _ := AppendJSONL(stamped);
    }
  }
}
