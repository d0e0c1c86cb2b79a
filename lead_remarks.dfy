/** The remark thread of a lead (leads.js lines 431-474): remarks are only
    ever appended, and each is read back in the order it was written. */
module LeadRemarks {
  import opened Domain
  import opened Seqs
  import opened Store
  import Leads

  /** The characters `String.prototype.trim` strips: the ECMAScript
      WhiteSpace (tab, vertical tab, form feed, the byte order mark and every
      space separator) and LineTerminator code points. */
  predicate IsSpace(c: char) {
    var n := c as int;
    || n == 0x09 || n == 0x0B || n == 0x0C || n == 0xFEFF
    || n == 0x20 || n == 0xA0 || n == 0x1680 || 0x2000 <= n <= 0x200A || n == 0x202F || n == 0x205F || n == 0x3000
    || n == 0x0A || n == 0x0D || n == 0x2028 || n == 0x2029
  }

  /** Where the text of `s` starts when the white space from `k` on is
      skipped. */
  function ContentStart(s: string, k: nat): (r: nat)
    requires k <= |s|
    ensures k <= r <= |s|
    ensures forall i :: k <= i < r ==> IsSpace(s[i])
    ensures r < |s| ==> !IsSpace(s[r])
    decreases |s| - k
  {
    if k < |s| && IsSpace(s[k]) then ContentStart(s, k + 1) else k
  }

  /** Where the text of `s[k..e]` ends when its trailing white space is
      dropped. */
  function ContentEnd(s: string, k: nat, e: nat): (r: nat)
    requires k <= e <= |s|
    ensures k <= r <= e
    ensures forall i :: r <= i < e ==> IsSpace(s[i])
    ensures k < r ==> !IsSpace(s[r - 1])
  {
    if k < e && IsSpace(s[e - 1]) then ContentEnd(s, k, e - 1) else e
  }

  /** `s.trim()`. */
  function Trim(s: string): string {
    var k := ContentStart(s, 0);
    s[k..ContentEnd(s, k, |s|)]
  }

  /** What `trim` keeps: the slice of `s` between its leading and its
      trailing white space, which starts and ends with a character that is not
      white space; it is empty exactly when `s` is all white space. */
  lemma TrimKeepsTheText(s: string)
    ensures var r, k := Trim(s), ContentStart(s, 0);
      && k + |r| <= |s| && r == s[k..k + |r|]
      && (forall i :: 0 <= i < k ==> IsSpace(s[i]))
      && (forall i :: k + |r| <= i < |s| ==> IsSpace(s[i]))
      && (r != [] ==> !IsSpace(r[0]) && !IsSpace(r[|r| - 1]))
      && (r == [] <==> forall i :: 0 <= i < |s| ==> IsSpace(s[i]))
  {
    var k := ContentStart(s, 0);
    var e := ContentEnd(s, k, |s|);
    var r := Trim(s);
    assert r == s[k..e] && |r| == e - k;
    if r != [] {
      assert r[0] == s[k] && r[|r| - 1] == s[e - 1];
    }
  }

  /** A message counts when it is present and not blank. */
  predicate HasText(message: Option<string>) {
    Leads.Present(message) && Trim(message.value) != ""
  }

  /** `GET /leads/:leadId/remarks`: the remarks of the lead, oldest first.
      The lead is not looked up; an unknown id has no remarks. */
  function Remarks(t: Tables, leadId: Id): (r: seq<LeadRemark>)
    ensures forall x :: x in r <==> x in t.remarks && x.leadId == leadId
  {
    Filter(t.remarks, (x: LeadRemark) => x.leadId == leadId)
  }

  /** In a chronological table the thread is oldest first. */
  lemma RemarksOldestFirst(t: Tables, leadId: Id)
    requires Valid(t)
    ensures var r := Remarks(t, leadId);
      forall i, j :: 0 <= i < j < |r| ==> r[i].createdAt < r[j].createdAt
  {
    FilterIncreasing(t.remarks, (x: LeadRemark) => x.leadId == leadId, RemarkStamp);
  }

  /** `POST /leads/:leadId/remarks`: a remark needs a non-blank message or a
      file; the lead must exist (deleted ones included); the message is stored
      trimmed. */
  function AddRemark(t: Tables, actor: User, leadId: Id, message: Option<string>, file: Option<string>): (r: (Tables, Outcome<LeadRemark>))
    ensures r.1 == Err(BadRequest) <==> !HasText(message) && file.None?
    ensures r.1 == Err(NotFound) <==> (HasText(message) || file.Some?) && FindLead(t.leads, leadId).None?
    ensures r.1.Err? ==> r.0 == t
    ensures r.1.Ok? <==> (HasText(message) || file.Some?) && FindLead(t.leads, leadId).Some?
    ensures r.1.Ok? ==>
      && r.0 == t.(remarks := t.remarks + [r.1.value], tick := t.tick + 1)
      && r.1.value.leadId == leadId && r.1.value.userId == actor.id && r.1.value.id == t.tick
      && r.1.value.message == (if Leads.Present(message) then Trim(message.value) else "")
      && r.1.value.fileUrl == (if file.Some? then Some(Leads.UploadUrl(file.value)) else None)
  {
    var fileUrl := if file.Some? then Some(Leads.UploadUrl(file.value)) else None;
    if !HasText(message) && fileUrl.None? then (t, Err(BadRequest))
    else if FindLead(t.leads, leadId).None? then (t, Err(NotFound))
    else
      var remark := LeadRemark(t.tick, leadId, actor.id, if Leads.Present(message) then Trim(message.value) else "",
                               fileUrl, t.tick);
      (t.(remarks := t.remarks + [remark], tick := t.tick + 1), Ok(remark))
  }

  /** The thread is append-only: whatever the request, every earlier remark
      is kept in place, and on success the lead's thread grows by exactly the
      new remark while every other lead's thread stays as it was. */
  lemma {:induction false} ThreadAppendOnly(t: Tables, actor: User, leadId: Id, message: Option<string>, file: Option<string>, other: Id)
    ensures var r := AddRemark(t, actor, leadId, message, file);
      && t.remarks <= r.0.remarks
      && (r.1.Ok? ==> Remarks(r.0, leadId) == Remarks(t, leadId) + [r.1.value])
      && (other != leadId ==> Remarks(r.0, other) == Remarks(t, other))
  {
    var r := AddRemark(t, actor, leadId, message, file);
    if r.1.Ok? {
      ThreadOfAppended(t.remarks, r.1.value, leadId);
      ThreadOfAppended(t.remarks, r.1.value, other);
    }
  }

  lemma ThreadOfAppended(remarks: seq<LeadRemark>, x: LeadRemark, leadId: Id)
    ensures Filter(remarks + [x], (y: LeadRemark) => y.leadId == leadId) ==
            Filter(remarks, (y: LeadRemark) => y.leadId == leadId) + (if x.leadId == leadId then [x] else [])
  {
    assert [x][1..] == [];
    FilterAppend(remarks, [x], (y: LeadRemark) => y.leadId == leadId);
  }

  /** Adding a remark keeps the table invariant. */
  lemma AddRemarkKeepsValid(t: Tables, actor: User, leadId: Id, message: Option<string>, file: Option<string>)
    requires Valid(t)
    ensures Valid(AddRemark(t, actor, leadId, message, file).0)
  {
    var r := AddRemark(t, actor, leadId, message, file);
    if r.1.Ok? {
      AppendChrono(t.remarks, r.1.value, RemarkId, RemarkStamp, t.tick, t.tick + 1);
      ChronoLater(t.users, UserId, UserStamp, t.tick, t.tick + 1);
      ChronoLater(t.hospitals, HospitalId, HospitalStamp, t.tick, t.tick + 1);
      ChronoLater(t.leads, LeadId, LeadStamp, t.tick, t.tick + 1);
      ChronoLater(t.documents, DocumentId, DocumentId, t.tick, t.tick + 1);
      ChronoLater(t.rates, RateId, RateId, t.tick, t.tick + 1);
    }
  }

  /** The handler of `POST /leads/:leadId/remarks`. */
  method HandleAddRemark(db: Db, actor: User, leadId: Id, message: Option<string>, file: Option<string>) returns (r: Outcome<LeadRemark>)
    modifies db
    ensures (db.Snapshot(), r) == AddRemark(old(db.Snapshot()), actor, leadId, message, file)
  {
    var fileUrl: Option<string> := None;
    if file.Some? {
      fileUrl := Some(Leads.UploadUrl(file.value));
    }
    if (!Leads.Present(message) || Trim(message.value) == "") && fileUrl.None? {
      return Err(BadRequest);
    }
    if FindLead(db.leads, leadId).None? {
      return Err(NotFound);
    }
    var remark := LeadRemark(db.tick, leadId, actor.id, if Leads.Present(message) then Trim(message.value) else "",
                             fileUrl, db.tick);
    db.remarks, db.tick := db.remarks + [remark], db.tick + 1;
    r := Ok(remark);
  }
}
