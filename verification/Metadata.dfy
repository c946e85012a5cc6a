/** The metadata store: owners and timeouts by cluster, kept as text (daemon/metadata.go). */
module Metadata {
  import opened Basics
  import opened Leases
  import opened Rfc3339

  datatype ClusterMeta = ClusterMeta(owner: string, timeout: Time)

  datatype ClusterMetaJSON = ClusterMetaJSON(owner: string, timeout: string)

  const DEFAULT_CLUSTER_META := ClusterMeta("unknown", DEFAULT_TIME)

  /** ClusterMeta{}, what a recovered panic leaves GetClusterMeta to return. */
  const ZERO_META := ClusterMeta("", Time(1, 1, 1, 0, 0, 0, 0, 0))

  function SerializeMeta(meta: ClusterMeta): ClusterMetaJSON {
    ClusterMetaJSON(meta.owner, Format(meta.timeout))
  }

  /** A timeout that cannot be read counts as the default one. */
  function DeserializeMeta(json: ClusterMetaJSON): ClusterMeta {
    ClusterMeta(json.owner, match Parse(json.timeout) case Some(t) => t case None => DEFAULT_TIME)
  }

  function LeaseOf(meta: ClusterMeta): Lease {
    Lease(meta.owner, Instant(meta.timeout))
  }

  /** The lease a stored record stands for. */
  function StoredLease(json: ClusterMetaJSON): Lease {
    LeaseOf(DeserializeMeta(json))
  }

  function LeaseTable(db: map<string, ClusterMetaJSON>): Table {
    map k <- db :: StoredLease(db[k])
  }

  /** What the store gives back is the same owner and the timeout cut down to its second, exactly for the
      timeouts whose year has at most four digits and whose zone is a whole number of minutes. */
  lemma RoundTrip(meta: ClusterMeta)
    requires Valid(meta.timeout)
    ensures StoredLease(SerializeMeta(meta)) == Lease(meta.owner, Truncate(Instant(meta.timeout)))
            <==> Encodable(meta.timeout)
    ensures Encodable(meta.timeout) ==>
              && DeserializeMeta(SerializeMeta(meta)) == meta.(timeout := DropNanos(meta.timeout))
              && DeserializeMeta(SerializeMeta(DeserializeMeta(SerializeMeta(meta))))
                 == DeserializeMeta(SerializeMeta(meta))
  {
    hide Seconds, Format, Parse, Truncate, TruncDiv;
    var t := meta.timeout;
    DropIsTruncate(t);
    ZoneWhole(t.offset);
    if 0 <= t.year <= 9999 {
      FormatThenParse(t);
      if Encodable(t) {
        FormatThenParse(DropNanos(t));
      }
      ZoneCutShort(t);
    } else {
      OtherYearsDoNotParse(t);
      NamedInstants();
      FarFromDefault(t);
    }
  }

  /** Losing odd seconds of the zone offset moves the instant. */
  lemma ZoneCutShort(t: Time)
    requires Valid(t)
    ensures var u := t.(nanos := 0, offset := TruncDiv(t.offset, 60) * 60);
            Instant(u) == Instant(DropNanos(t)) <==> t.offset % 60 == 0
  {
    var cut := TruncDiv(t.offset, 60) * 60;
    ZoneWhole(t.offset);
    assert Seconds(t.(nanos := 0, offset := cut)) == Seconds(DropNanos(t)) + t.offset - cut;
  }

  /** The default timeout is not the truncation of any instant outside the years 0 to 9999. */
  lemma FarFromDefault(t: Time)
    requires Valid(t) && !(0 <= t.year <= 9999)
    ensures Truncate(Instant(t)) != DEFAULT_TIMEOUT
  {
    DropIsTruncate(t);
    var y := t.year - 1;
    assert 365 * y + y / 4 - y / 100 + y / 400 >= 365 * 9999 <== t.year > 9999;
    assert 365 * y + y / 4 - y / 100 + y / 400 <= 0 <== t.year < 0;
    assert Seconds(t) != 7_952_342_400;
  }

  // ---------- Transactions on text ----------

  /** Records whose zone can be written again, as all that the daemon writes are. */
  predicate Tidy(json: ClusterMetaJSON) {
    Encodable(DeserializeMeta(json).timeout) && DeserializeMeta(json).timeout.nanos == 0
  }

  lemma WrittenIsTidy(meta: ClusterMeta)
    requires Encodable(meta.timeout)
    ensures Tidy(SerializeMeta(meta))
    ensures StoredLease(SerializeMeta(meta)) == Lease(meta.owner, Truncate(Instant(meta.timeout)))
  {
    RoundTrip(meta);
    hide StoredLease, SerializeMeta, DeserializeMeta, Instant;
  }

  lemma LeaseTableUpdate(db: map<string, ClusterMetaJSON>, key: string, json: ClusterMetaJSON)
    ensures LeaseTable(db[key := json]) == LeaseTable(db)[key := StoredLease(json)]
  {
    hide StoredLease;
  }

  lemma KeysOfTable(db: map<string, ClusterMetaJSON>)
    ensures LeaseTable(db).Keys == db.Keys
  {}

  /** Inserting text does to the leases what CreateRecord says. */
  lemma InsertMatchesRecord(db: map<string, ClusterMetaJSON>, key: string, meta: ClusterMeta)
    requires Encodable(meta.timeout) && key !in db
    ensures CreateRecord(LeaseTable(db), key, meta.owner, Instant(meta.timeout))
            == Ok(LeaseTable(db[key := SerializeMeta(meta)]))
  {
    WrittenIsTidy(meta);
    LeaseTableUpdate(db, key, SerializeMeta(meta));
    hide StoredLease, SerializeMeta, Encodable, Tidy, Instant, Truncate;
  }

  /** Where the lookup inside the create transaction fails although the record is there, the record is
      overwritten; its lease gets shorter exactly if the new one, cut down to its second, ends earlier. */
  lemma OverwriteShortensIff(db: map<string, ClusterMetaJSON>, key: string, meta: ClusterMeta)
    requires key in db && Encodable(meta.timeout)
    ensures LeaseTable(db[key := SerializeMeta(meta)])[key].timeout < LeaseTable(db)[key].timeout
            <==> Truncate(Instant(meta.timeout)) < LeaseTable(db)[key].timeout
  {
    WrittenIsTidy(meta);
    LeaseTableUpdate(db, key, SerializeMeta(meta));
  }

  /** The update function refreshCluster passes (daemon/clusters.go:282-288). */
  function Renew(newMeta: ClusterMeta, meta: ClusterMeta): ClusterMeta {
    var later := Instant(meta.timeout) < Instant(newMeta.timeout);
    ClusterMeta(newMeta.owner, if later then newMeta.timeout else meta.timeout)
  }

  /** Renewing the text of a record does to its lease what RefreshRecord says. */
  lemma RenewMatchesRecord(db: map<string, ClusterMetaJSON>, key: string, newMeta: ClusterMeta)
    requires key in db && Tidy(db[key]) && Encodable(newMeta.timeout)
    ensures var json := SerializeMeta(Renew(newMeta, DeserializeMeta(db[key])));
            && Tidy(json)
            && RefreshRecord(LeaseTable(db), key, newMeta.owner, Instant(newMeta.timeout))
               == Ok(LeaseTable(db[key := json]))
  {
    var renewed := Renew(newMeta, DeserializeMeta(db[key]));
    WrittenIsTidy(renewed);
    LeaseTableUpdate(db, key, SerializeMeta(renewed));
    hide SerializeMeta, Encodable, Tidy, Instant, Truncate, DeserializeMeta;
  }

  // ---------- The store ----------

  /** How a transaction can go wrong: its lookup fails although the key may be there, or it does not
      commit. */
  datatype Fault = NoFault | LookupFault | CommitFault

  function Key(id: string): string { "cluster-" + id }

  /** No two clusters share a record. */
  lemma KeysDiffer(a: string, b: string)
    requires Key(a) == Key(b)
    ensures a == b
  {
    assert Key(a)[8..] == a && Key(b)[8..] == b;
  }

  class MetaDataStore {
    var db: map<string, ClusterMetaJSON>

    constructor ()
      ensures db == map[]
    {
      db := map[];
    }

    /** The leases the store holds, by key. */
    ghost function Table(): Table
      reads this
    {
      LeaseTable(db)
    }

    method CreateClusterMeta(id: string, meta: ClusterMeta, fault: Fault) returns (err: Option<string>)
      modifies this
      ensures fault.NoFault? && Encodable(meta.timeout) ==>
                match CreateRecord(old(Table()), Key(id), meta.owner, Instant(meta.timeout))
                case Ok(table) => err == None && Table() == table
                case Err(e) => err == Some(e) && db == old(db)
      ensures err.Some? ==> db == old(db)
      ensures err.None? ==> db == old(db)[Key(id) := SerializeMeta(meta)]
      ensures err.None? <==> (fault.NoFault? && Key(id) !in old(db)) || fault.LookupFault?
    {
      hide SerializeMeta, Encodable, Instant, LeaseTable, StoredLease;
      if Key(id) !in db && Encodable(meta.timeout) {
        InsertMatchesRecord(db, Key(id), meta);
      }
      KeysOfTable(db);
      var found := Key(id) in db && !fault.LookupFault?;
      if found {
        return Some("cluster meta-data already existed");
      }
      if fault.CommitFault? {
        return Some("transaction failed");
      }
      db := db[Key(id) := SerializeMeta(meta)];
      err := None;
    }

    method UpdateClusterMeta(id: string, update: ClusterMeta -> Result<ClusterMeta, string>, fault: Fault)
        returns (err: Option<string>)
      modifies this
      ensures err.Some? ==> db == old(db)
      ensures err.None? ==>
                && Key(id) in old(db) && update(DeserializeMeta(old(db)[Key(id)])).Ok?
                && db == old(db)[Key(id) := SerializeMeta(update(DeserializeMeta(old(db)[Key(id)])).value)]
      ensures err.None? <==>
                fault.NoFault? && Key(id) in old(db) && update(DeserializeMeta(old(db)[Key(id)])).Ok?
    {
      if Key(id) !in db || fault.LookupFault? {
        return Some("Key not found");
      }
      var meta := update(DeserializeMeta(db[Key(id)]));
      if meta.Err? {
        return Some(meta.error);
      }
      if fault.CommitFault? {
        return Some("transaction failed");
      }
      db := db[Key(id) := SerializeMeta(meta.value)];
      err := None;
    }

    /** The pair GetClusterMeta returns; after a recovered panic the zero value and no error. */
    method GetClusterMeta(id: string, fault: Fault, panics: bool) returns (meta: ClusterMeta, err: Option<string>)
      ensures var out := if panics then Panicked
                         else if Key(id) in db && fault.NoFault? then Found(Table()[Key(id)]) else Failed;
              Admissible(Table(), Key(id), out) && LeaseOf(meta) == ViewOf(out) && (err.Some? <==> out.Failed?)
    {
      NamedInstants();
      if panics {
        return ZERO_META, None;
      }
      if Key(id) !in db || !fault.NoFault? {
        return DEFAULT_CLUSTER_META, Some("Key not found");
      }
      return DeserializeMeta(db[Key(id)]), None;
    }
  }

  // ---------- Refreshing through the store ----------

  /** The writing half of refreshCluster (daemon/clusters.go:276-288): look the record up, then insert or
      update.  Both halves are the transactions of Leases, applied to what the text means; an insert whose own
      lookup fails overwrites. */
  method RefreshMeta(store: MetaDataStore, id: string, newMeta: ClusterMeta, probe: Fault, panics: bool, fault: Fault)
      returns (err: Option<string>)
    requires Encodable(newMeta.timeout) && forall k <- store.db :: Tidy(store.db[k])
    modifies store
    ensures forall k <- store.db :: Tidy(store.db[k])
    ensures err.Some? ==> store.db == old(store.db)
    ensures fault.NoFault? ==>
              var probed := !panics && (Key(id) !in old(store.db) || !probe.NoFault?);
              var owner, timeout := newMeta.owner, Instant(newMeta.timeout);
              match if probed then CreateRecord(old(store.Table()), Key(id), owner, timeout)
                    else RefreshRecord(old(store.Table()), Key(id), owner, timeout)
              case Ok(table) => err == None && store.Table() == table
              case Err(_) => err.Some?
    ensures fault.LookupFault? ==>
              var probed := !panics && (Key(id) !in old(store.db) || !probe.NoFault?);
              if probed then
                var lease := Lease(newMeta.owner, Truncate(Instant(newMeta.timeout)));
                err == None && store.Table() == old(store.Table())[Key(id) := lease]
              else err.Some?
  {
    hide SerializeMeta, DeserializeMeta, Encodable, Instant, LeaseTable, StoredLease, Tidy, Renew;
    KeysOfTable(store.db);
    var meta, probeErr := store.GetClusterMeta(id, probe, panics);
    if probeErr.Some? {
      WrittenIsTidy(newMeta);
      LeaseTableUpdate(store.db, Key(id), SerializeMeta(newMeta));
      err := store.CreateClusterMeta(id, newMeta, fault);
      return;
    }
    if Key(id) in store.db {
      RenewMatchesRecord(store.db, Key(id), newMeta);
    }
    err := store.UpdateClusterMeta(id, kept => Ok(Renew(newMeta, kept)), fault);
  }
}
