/** The business view of backend/bot/data_loader.py: one pass over the stored
    rows that groups them by record type. Reading the table is left out; the
    fold starts from the rows already read, an empty cell being `None`. */
module Loader {
  import opened Wrappers
  import opened Schema

  /** One `services` entry. */
  datatype Service = Service(units: Option<int>, price: Option<int>, memberFeeMonth: Option<int>)

  /** One `links` entry. */
  datatype Link = Link(text: Option<string>, url: Option<string>)

  /** The `data` dictionary. */
  datatype BusinessView = BusinessView(
    services: seq<Service>,
    about: Option<string>,
    joinInfo: Option<string>,
    pricingSummary: Option<string>,
    testimonials: seq<Option<string>>,
    links: seq<Link>,
    address: Option<string>,
    phone: Option<string>,
    email: Option<string>)

  /** Empty lists and every single value `None`. */
  const InitialView := BusinessView([], None, None, None, [], [], None, None, None)

  /** Python truthiness of a string slot: `None` and "" are false. */
  predicate Truthy(x: Option<string>) {
    x.Some? && x.value != ""
  }

  predicate IsType(r: Row, t: string) {
    r.recordType == Some(t)
  }

  /** The three contact slots, filled only from service rows. */
  datatype ContactSlot = AddressSlot | PhoneSlot | EmailSlot

  function RowContact(r: Row, f: ContactSlot): Option<string> {
    match f
    case AddressSlot => r.address
    case PhoneSlot => r.phone
    case EmailSlot => r.email
  }

  function ViewContact(v: BusinessView, f: ContactSlot): Option<string> {
    match f
    case AddressSlot => v.address
    case PhoneSlot => v.phone
    case EmailSlot => v.email
  }

  /** The three content slots, each overwritten by every row of its type. */
  const ContentTypes := [AboutType, JoinInfoType, PricingSummaryType]

  function ViewContent(v: BusinessView, t: string): Option<string>
    requires t in ContentTypes
  {
    if t == AboutType then v.about else if t == JoinInfoType then v.joinInfo else v.pricingSummary
  }

  /** `not data[key] and pd.notna(value)`: fill an empty slot. */
  function Fill(slot: Option<string>, value: Option<string>): Option<string> {
    if !Truthy(slot) && value.Some? then value else slot
  }

  /** One turn of the loop: each list gains exactly the row's own entry, if any. */
  function Step(v: BusinessView, r: Row): (w: BusinessView)
    ensures w.services == v.services + ServicesOf(r)
    ensures w.testimonials == v.testimonials + TestimonialsOf(r)
    ensures w.links == v.links + LinksOf(r)
  {
    if IsType(r, ServiceType) then
      v.(services := v.services + [Service(r.units, r.price, r.memberFeeMonth)],
         address := Fill(v.address, r.address),
         phone := Fill(v.phone, r.phone),
         email := Fill(v.email, r.email))
    else if IsType(r, AboutType) then v.(about := r.content)
    else if IsType(r, JoinInfoType) then v.(joinInfo := r.content)
    else if IsType(r, PricingSummaryType) then v.(pricingSummary := r.content)
    else if IsType(r, TestimonialType) then v.(testimonials := v.testimonials + [r.content])
    else if IsType(r, LinkType) then v.(links := v.links + [Link(r.linkText, r.linkUrl)])
    else v
  }

  /** The view after folding `rows` in order into the initial view; each row
      adds at most one list entry. */
  function ViewOf(rows: seq<Row>): (v: BusinessView)
    ensures |v.services| + |v.testimonials| + |v.links| <= |rows|
    decreases |rows|
  {
    if rows == [] then InitialView else Step(ViewOf(rows[..|rows| - 1]), rows[|rows| - 1])
  }

  /** Folding one more row is one more step. */
  lemma ViewOfSnoc(rows: seq<Row>, r: Row)
    ensures ViewOf(rows + [r]) == Step(ViewOf(rows), r)
  {
    assert (rows + [r])[..|rows|] == rows;
  }

  /** `load_business_data`, given the rows. */
  method LoadBusinessData(rows: seq<Row>) returns (data: BusinessView)
    ensures data == ViewOf(rows)
  {
    data := InitialView;
    for i := 0 to |rows|
      invariant data == ViewOf(rows[..i])
    {
      var row := rows[i];
      assert rows[..i + 1] == rows[..i] + [row];
      ViewOfSnoc(rows[..i], row);
      if row.recordType == Some(ServiceType) {
        data := data.(services := data.services + [Service(row.units, row.price, row.memberFeeMonth)]);
        if !Truthy(data.address) && row.address.Some? {
          data := data.(address := row.address);
        }
        if !Truthy(data.phone) && row.phone.Some? {
          data := data.(phone := row.phone);
        }
        if !Truthy(data.email) && row.email.Some? {
          data := data.(email := row.email);
        }
      } else if row.recordType == Some(AboutType) {
        data := data.(about := row.content);
      } else if row.recordType == Some(JoinInfoType) {
        data := data.(joinInfo := row.content);
      } else if row.recordType == Some(PricingSummaryType) {
        data := data.(pricingSummary := row.content);
      } else if row.recordType == Some(TestimonialType) {
        data := data.(testimonials := data.testimonials + [row.content]);
      } else if row.recordType == Some(LinkType) {
        data := data.(links := data.links + [Link(row.linkText, row.linkUrl)]);
      }
    }
    assert rows[..|rows|] == rows;
  }

  /** The list entries a single row contributes. */
  function ServicesOf(r: Row): seq<Service> {
    if IsType(r, ServiceType) then [Service(r.units, r.price, r.memberFeeMonth)] else []
  }

  function TestimonialsOf(r: Row): seq<Option<string>> {
    if IsType(r, TestimonialType) then [r.content] else []
  }

  function LinksOf(r: Row): seq<Link> {
    if IsType(r, LinkType) then [Link(r.linkText, r.linkUrl)] else []
  }

  /** The three lists only ever grow at the end: loading `a` then `b` lists
      `a`'s entries, then `b`'s, with nothing dropped or merged. */
  lemma {:induction false} ListsConcatenate(a: seq<Row>, b: seq<Row>)
    ensures ViewOf(a + b).services == ViewOf(a).services + ViewOf(b).services
    ensures ViewOf(a + b).testimonials == ViewOf(a).testimonials + ViewOf(b).testimonials
    ensures ViewOf(a + b).links == ViewOf(a).links + ViewOf(b).links
    decreases |b|
  {
    if b == [] {
      assert a + b == a;
    } else {
      var init, last := b[..|b| - 1], b[|b| - 1];
      assert a + b == (a + init) + [last] && b == init + [last];
      ViewOfSnoc(a + init, last);
      ViewOfSnoc(init, last);
      ListsConcatenate(a, init);
      var left, right := ViewOf(a), ViewOf(init);
      Associative(left.services, right.services, ServicesOf(last));
      Associative(left.testimonials, right.testimonials, TestimonialsOf(last));
      Associative(left.links, right.links, LinksOf(last));
    }
  }

  lemma Associative<T>(x: seq<T>, y: seq<T>, z: seq<T>)
    ensures (x + y) + z == x + (y + z)
  {
  }

  /** Each row contributes to the lists exactly its own entry. */
  lemma OneRowLists(r: Row)
    ensures ViewOf([r]).services == if IsType(r, ServiceType) then [Service(r.units, r.price, r.memberFeeMonth)] else []
    ensures ViewOf([r]).testimonials == if IsType(r, TestimonialType) then [r.content] else []
    ensures ViewOf([r]).links == if IsType(r, LinkType) then [Link(r.linkText, r.linkUrl)] else []
  {
    assert [r][..0] == [];
  }

  /** A row of a type the loader does not list, "generic" among them, leaves
      the view as it was. */
  lemma UnlistedRowIgnored(rows: seq<Row>, r: Row)
    requires !IsType(r, ServiceType) && !IsType(r, TestimonialType) && !IsType(r, LinkType)
    requires forall t :: t in ContentTypes ==> !IsType(r, t)
    ensures ViewOf(rows + [r]) == ViewOf(rows)
  {
    assert (rows + [r])[..|rows|] == rows;
    assert AboutType in ContentTypes && JoinInfoType in ContentTypes && PricingSummaryType in ContentTypes;
  }

  /** A content slot holds the content of the last row of its type. */
  lemma {:induction false} LastContentWins(rows: seq<Row>, t: string, k: nat)
    requires t in ContentTypes
    requires k < |rows| && IsType(rows[k], t)
    requires forall j :: k < j < |rows| ==> !IsType(rows[j], t)
    ensures ViewContent(ViewOf(rows), t) == rows[k].content
    decreases |rows|
  {
    var init := rows[..|rows| - 1];
    if k < |rows| - 1 {
      LastContentWins(init, t, k);
    }
  }

  /** A content slot stays `None` when no row has its type. */
  lemma {:induction false} NoContentRow(rows: seq<Row>, t: string)
    requires t in ContentTypes
    requires forall j :: 0 <= j < |rows| ==> !IsType(rows[j], t)
    ensures ViewContent(ViewOf(rows), t) == None
    decreases |rows|
  {
    if rows != [] {
      NoContentRow(rows[..|rows| - 1], t);
    }
  }

  /** Before any service row with a non-empty value, the slot is not filled. */
  lemma {:induction false} UnfilledBefore(rows: seq<Row>, f: ContactSlot)
    requires forall j :: 0 <= j < |rows| && IsType(rows[j], ServiceType) ==> !Truthy(RowContact(rows[j], f))
    ensures !Truthy(ViewContact(ViewOf(rows), f))
    decreases |rows|
  {
    if rows != [] {
      UnfilledBefore(rows[..|rows| - 1], f);
    }
  }

  /** A contact slot holds the value of the first service row that has a
      non-empty one; later rows never overwrite it. */
  lemma {:induction false} FirstFilledWins(rows: seq<Row>, f: ContactSlot, k: nat)
    requires k < |rows| && IsType(rows[k], ServiceType) && Truthy(RowContact(rows[k], f))
    requires forall j :: 0 <= j < k && IsType(rows[j], ServiceType) ==> !Truthy(RowContact(rows[j], f))
    ensures ViewContact(ViewOf(rows), f) == RowContact(rows[k], f)
    decreases |rows|
  {
    var init := rows[..|rows| - 1];
    if k < |rows| - 1 {
      FirstFilledWins(init, f, k);
    } else {
      UnfilledBefore(init, f);
    }
  }

  /** A contact slot is `None` or the value of some service row: no other
      record type sets it. */
  lemma {:induction false} ContactFromServiceRow(rows: seq<Row>, f: ContactSlot)
    ensures var v := ViewContact(ViewOf(rows), f);
      v.None? || exists k :: 0 <= k < |rows| && IsType(rows[k], ServiceType) && RowContact(rows[k], f) == v
    decreases |rows|
  {
    if rows != [] {
      var init := rows[..|rows| - 1];
      ContactFromServiceRow(init, f);
      var v := ViewContact(ViewOf(rows), f);
      if v.Some? && v != ViewContact(ViewOf(init), f) {
        assert IsType(rows[|rows| - 1], ServiceType) && RowContact(rows[|rows| - 1], f) == v;
      } else if v.Some? {
        var k :| 0 <= k < |init| && IsType(init[k], ServiceType) && RowContact(init[k], f) == v;
        assert rows[k] == init[k];
      }
    }
  }
}
