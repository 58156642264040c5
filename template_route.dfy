/** `/api/template`: listing and creating letter templates. */
module TemplateRoute {
  import opened Domain
  import opened Seqs
  import opened Db

  /** The JSON body of a create request. */
  datatype TemplateBody = TemplateBody(nama: Text, isi: Text)

  const RequiredMessage: Text := "nama_template and isi_template are required"

  predicate MissingRequired(body: TemplateBody)
  {
    Falsy(body.nama) || Falsy(body.isi)
  }

  /** `POST`: check both fields and insert. Nothing about a template is unique,
      so there is no 409. */
  method Post(db: Store, body: TemplateBody) returns (res: Response<Template>)
    requires db.Valid()
    modifies db
    ensures db.Valid()
    ensures MissingRequired(body) ==>
      res == BadRequest(RequiredMessage) && db.State() == old(db.State())
    ensures !MissingRequired(body) ==>
      var t := Template(old(db.nextTemplateId), body.nama, body.isi);
      && res == Created(t) && res.Code() == 201
      && db.State() == old(db.State()).(templates := old(db.templates) + [t],
                                        nextTemplateId := old(db.nextTemplateId) + 1)
  {
    if MissingRequired(body) {
      return BadRequest(RequiredMessage);
    }
    var t := db.InsertTemplate(body.nama, body.isi);
    res := Created(t);
  }

  /** Two creates with the same body both succeed, as two templates. */
  method PostTwice(db: Store, body: TemplateBody) returns (first: Response<Template>, second: Response<Template>)
    requires db.Valid()
    requires !MissingRequired(body)
    modifies db
    ensures first.Created? && second.Created?
    ensures first.value.nama == second.value.nama && first.value.id != second.value.id
    ensures db.templates == old(db.templates) + [first.value, second.value]
  {
    first := Post(db, body);
    second := Post(db, body);
  }

  /** The resolutions that used a template. */
  function ByTemplate(id: int): TindakLanjut -> bool
  {
    (t: TindakLanjut) => t.idTemplate == id
  }

  /** `GET`: every template, newest id first, with the number of resolutions
      that used it. */
  function Get(db: Store): (r: seq<Counted<Template>>)
    requires db.Valid()
    reads db
    ensures multiset(Items(r)) == multiset(db.templates)
    ensures forall i, j :: 0 <= i < j < |r| ==> r[i].item.id > r[j].item.id
    ensures forall i :: 0 <= i < |r| ==> r[i].count == Count(db.tindakLanjut, ByTemplate(r[i].item.id))
  {
    var ts := db.tindakLanjut;
    SortDescStrict(db.templates, TemplateId);
    var sorted := SortDesc(db.templates, TemplateId);
    ItemsOfWithCounts(sorted, (t: Template) => Count(ts, ByTemplate(t.id)));
    WithCounts(sorted, (t: Template) => Count(ts, ByTemplate(t.id)))
  }
}
