/** The whole pipeline over an unreliable store: resumable uploads, registration, verification,
    resumable downloads and restoration. */
module Pipeline {
  import opened Common
  import opened Files
  import opened PackFormat
  import opened PackCodec
  import opened PackPlan
  import opened TransportPlan
  import opened Manifest
  import opened ManifestLaws
  import opened ObjectContents
  import opened Restore
  import opened EndToEnd
  import Executor
  import Download

  /** How often a call is tried, and how many parts a listing shows. */
  datatype Network = Network(attempts: nat, pageLimit: nat)

  /** Uploads one object; what arrives is what was sent. */
  method SendObject(net: Network, fileId: nat, bytes: seq<byte>) returns (stored: Option<seq<byte>>)
    ensures stored.Some? ==> stored.value == bytes
  {
    if |bytes| > U64_MAX {
      return None;
    }
    var uploaded := Executor.UploadObject(fileId, bytes, net.attempts, net.pageLimit);
    return if uploaded.Success? then uploaded.value.published else None;
  }

  /** Downloads one object of a known size, going on with the partial file after each failure. The
      result is the object, unless the last reply was an odd one. */
  method FetchObject(net: Network, bytes: seq<byte>) returns (fetched: Option<seq<byte>>, ghost odd: bool)
    ensures fetched.Some? && !odd ==> fetched.value == bytes
  {
    odd := false;
    if |bytes| > U64_MAX {
      return None, odd;
    }
    var server := new Download.ObjectServer(bytes);
    var folder := new Download.DownloadFolder();
    var expected: Option<u64> := Some(|bytes|);
    hide Download.Attempt, Download.Honest;
    for attempt := 0 to net.attempts
      invariant Download.Prefixes(folder.Abs(), bytes) && server.content == bytes
    {
      ghost var before := folder.Abs();
      var r;
      ghost var reply, written;
      r, reply, written := Download.DownloadObjectResumable(server, folder, expected);
      Download.AttemptKeepsPrefixes(bytes, expected, before, reply, written, folder.Abs(), r);
      if r.Success? {
        odd := Download.OddReply(before, expected, reply);
        if !odd {
          Download.SuccessDelivers(bytes, expected, before, reply, written, folder.Abs(), r);
        }
        return folder.destination, odd;
      }
    }
    return None, odd;
  }

  /** Uploads the object of every parcel. */
  method SendObjects(net: Network, hash: Hash, printer: Printer, contentOf: Contents, encoder: Encoder, budget: u64,
                     plan: Plan, ids: seq<ObjectId>, objects: seq<TransportObject>)
    returns (store: Option<Store>)
    requires |ids| == |plan.packs| + |plan.standalone| == |objects|
    requires ToUpload(hash, printer, contentOf, Parcels(encoder, budget, plan, ids), objects)
    ensures store.Some? ==> Stored(printer, contentOf, Parcels(encoder, budget, plan, ids), store.value, |ids|)
  {
    var encoded := UploadObjects(hash, printer, contentOf, encoder, budget, plan, ids, objects);
    hide *;
    ghost var parcels := Parcels(encoder, budget, plan, ids);
    var sent: Store := map[];
    NothingStored(printer, contentOf, parcels, sent);
    for k := 0 to |objects|
      invariant Stored(printer, contentOf, parcels, sent, k)
    {
      ObjectInStore(hash, printer, contentOf, parcels, objects, encoded, k);
      var stored := SendObject(net, objects[k].id, encoded[objects[k].id]);
      if stored.None? {
        return None;
      }
      StoredOneMore(hash, printer, contentOf, parcels, objects, sent, k, stored.value);
      sent := sent[objects[k].id := stored.value];
    }
    return Some(sent);
  }

  lemma NothingStored(printer: Printer, contentOf: Contents, parcels: seq<Parcel>, store: Store)
    ensures Stored(printer, contentOf, parcels, store, 0)
  {
  }

  lemma ObjectInStore(hash: Hash, printer: Printer, contentOf: Contents, parcels: seq<Parcel>, objects: seq<TransportObject>,
                      store: Store, k: nat)
    requires ToUpload(hash, printer, contentOf, parcels, objects) && k < |objects|
    requires Stored(printer, contentOf, parcels, store, |parcels|)
    ensures objects[k].id in store && store[objects[k].id] == StoredBytes(printer, contentOf, parcels[k])
  {
    hide ParcelGood, StoredBytes;
  }

  lemma StoredOneMore(hash: Hash, printer: Printer, contentOf: Contents, parcels: seq<Parcel>, objects: seq<TransportObject>,
                      store: Store, k: nat, bytes: seq<byte>)
    requires ToUpload(hash, printer, contentOf, parcels, objects) && k < |objects|
    requires Stored(printer, contentOf, parcels, store, k) && bytes == StoredBytes(printer, contentOf, parcels[k])
    ensures Stored(printer, contentOf, parcels, store[objects[k].id := bytes], k + 1)
  {
    hide ParcelGood, StoredBytes;
  }

  /** Downloads every object. */
  method FetchObjects(net: Network, hash: Hash, printer: Printer, contentOf: Contents, ghost parcels: seq<Parcel>,
                      objects: seq<TransportObject>, store: Store)
    returns (downloaded: Option<Store>, ghost odd: bool)
    requires ToUpload(hash, printer, contentOf, parcels, objects) && Stored(printer, contentOf, parcels, store, |parcels|)
    ensures downloaded.Some? && !odd ==> Stored(printer, contentOf, parcels, downloaded.value, |parcels|)
  {
    hide *;
    odd := false;
    var fetched: Store := map[];
    NothingStored(printer, contentOf, parcels, fetched);
    SameCount(hash, printer, contentOf, parcels, objects);
    for k := 0 to |objects|
      invariant !odd ==> Stored(printer, contentOf, parcels, fetched, k)
    {
      ObjectInStore(hash, printer, contentOf, parcels, objects, store, k);
      var got;
      ghost var strange;
      got, strange := FetchObject(net, store[objects[k].id]);
      if got.None? {
        return None, odd;
      }
      odd := odd || strange;
      if !odd {
        StoredOneMore(hash, printer, contentOf, parcels, objects, fetched, k, got.value);
      }
      fetched := fetched[objects[k].id := got.value];
    }
    return Some(fetched), odd;
  }

  lemma SameCount(hash: Hash, printer: Printer, contentOf: Contents, parcels: seq<Parcel>, objects: seq<TransportObject>)
    requires ToUpload(hash, printer, contentOf, parcels, objects)
    ensures |objects| == |parcels|
  {
    hide ParcelGood;
  }

  /** Every stage may fail and the transfer with it. A transfer that goes through yields the data
      set, unless a resumed download met an odd reply; and when the bytes get through, the manifest,
      the verification and the restore do not fail. */
  method Transfer(net: Network, hash: Hash, printer: Printer, parse: Parser, lower: Lowercase, contentOf: Contents,
                  encoder: Encoder, newId: nat -> ObjectId, files: seq<FileRecord>, options: PackOptions, budget: u64)
    returns (arrived: bool, restored: bool, folder: Folder, ghost odd: bool)
    requires Inverts(printer, parse) && GoodDataset(hash, printer, lower, contentOf, files) && PacksCountable(files, options)
    requires Sane(encoder) && (forall members :: encoder(members).Some?) && IsIdSource(newId, files)
    requires 0 < options.maximumMemberSize && 0 < options.targetPackSize
    ensures restored ==> arrived
    ensures arrived && !odd ==> restored && IsDataset(folder.files, contentOf, files)
  {
    hide *;
    arrived, restored, odd := false, false, false;
    folder := new Folder();
    var accepted, m, plan, ids, objects :=
      Register(hash, printer, lower, contentOf, encoder, newId, files, options, budget);
    ghost var parcels := Parcels(encoder, budget, plan, ids);
    var store := SendObjects(net, hash, printer, contentOf, encoder, budget, plan, ids, objects);
    if store.None? {
      return;
    }
    AllStoredVerified(hash, printer, parse, contentOf, files, parcels, m, store.value);
    var verified := VerifyTransfer(hash, parse, m, store.value);
    if !accepted || !verified {
      return;
    }
    var downloaded;
    downloaded, odd := FetchObjects(net, hash, printer, contentOf, parcels, objects, store.value);
    if downloaded.None? {
      return;
    }
    arrived := true;
    restored := RestoreDataset(hash, parse, lower, m, |files|, downloaded.value, folder);
    if !odd {
      AllStoredVerified(hash, printer, parse, contentOf, files, parcels, m, downloaded.value);
      VerifiedIsRestorable(hash, parse, lower, m, downloaded.value);
      RestoredIsDataset(hash, printer, parse, contentOf, files, parcels, m, downloaded.value, folder.files);
    }
  }
}
