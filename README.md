# Pengaduan siswa: a verified model of the complaint tracker's core

The system is a school complaint tracker built with Next.js and Prisma. Staff
(*guru*) file complaints (*pengaduan*) about students (*siswa*). Administrators
review each complaint and move it through four statuses: `Menunggu`
(waiting), `Disetujui` (approved), `Ditolak` (rejected) and `Selesai`
(done). They also maintain the master data: accounts (*users*), staff,
students and letter templates (*template surat*).

This project models two parts of it in Dafny:

- **The REST handlers** for listing and creating each kind of record, plus the
  statistics counter.
- **The client-side logic of the admin and staff pages.** That is the search
  filters, the class list, the form handlers, the request a page sends, the
  status badge, the numbered history table, the dashboard summary and the
  sidebar's expandable groups.

## Layout

| file | module | what it holds |
|---|---|---|
| `domain.dfy` | `Domain` | Records, the `Status`/`Role` enumerations, the handler `Response` type, JavaScript falsiness and `x \|\| null`. |
| `seqs.dfy` | `Seqs` | `filter`, subsequences, counts, descending ordering by a key, distinct keys, rows with a `_count`. |
| `texts.dfy` | `Texts` | `toLowerCase`, `includes`, the case-insensitive search test, `new Set`, and the default string `sort`. |
| `decimal.dfy` | `Decimal` | `toString` and `parseInt` on integers. |
| `db.dfy` | `Db` | The database as a class `Store` with one table per model, autoincrement counters and the schema's invariants. |
| `users_route.dfy`, `guru_route.dfy`, `siswa_route.dfy`, `template_route.dfy`, `pengaduan_route.dfy`, `stats_route.dfy` | `UsersRoute`, … | One module per route file. `POST` is a method on the store; `GET` is a function of it. |
| `status.dfy` | `StatusTally`, `StatusBadge` | Per-status tallies, and `getStatusColor`. |
| `page_state.dfy` | `PageState` | The request `handleSubmit` sends, and the form state class that every admin page shares. |
| `admin_*_page.dfy`, `guru_riwayat_page.dfy`, `guru_dashboard_page.dfy`, `admin_sidebar.dfy` | one module per page | The page logic. |

## Modelling choices

- **The database** is an in-memory `Db.Store`:
  - `findUnique` is an existence test or a lookup.
  - `create` appends the row under the next id.
  - `count` is a length.
  - `findMany` with `orderBy: desc` is a filter followed by a sort.

  `Store.Valid()` is what the schema guarantees:
  - the ids of accounts, staff, students, complaints and templates are positive, distinct and below their table's counter;
  - resolution ids are distinct, and a complaint has at most one resolution. The update handler treats `tindak_lanjut` as one optional object and deletes it by `id_pengaduan`, which needs that uniqueness. No modelled handler creates a resolution, so that table has no counter, and no rule ties a resolution to a stored complaint;
  - `username`, `nip` and `nisn` are unique;
  - every complaint refers to an existing guru and siswa.

  Every `POST` keeps `Valid()`. So "usernames, NIPs and NISNs stay unique across creates" is a postcondition of each handler.
- **Every `POST` reports its whole new state.** Either the store is `old(State())`, or it is `old(State())` with exactly one row appended and that table's counter incremented.
- **Request bodies:**
  - text fields are `Text`, where `""` stands for an absent, `null` or empty field, because every handler tests them with `!field`;
  - id fields are `Option<int>`, the number `parseInt` reads, where `None` is absent, `null` or NaN.
- **Enum columns.** `status_laporan` and `role` are taken to be enumeration columns, as the page types `'Menunggu' | 'Disetujui' | 'Ditolak' | 'Selesai'` and `'admin' | 'petugas'` and the `as any` cast in the complaint listing indicate. A value outside the enumeration makes the query throw, and the handler's `catch` turns that into a 500. The model returns `Unavailable` with the handler's message in those cases:
  - `POST /api/users` with an unknown role;
  - `POST /api/pengaduan` with an unknown status;
  - `GET /api/pengaduan?status=` with an unknown status.
- **Outside inputs.** The bcrypt hash is a function parameter `hash`, treated as opaque. The clock behind `new Date()` is a parameter `now: nat`.
- **Pages.** The five admin pages are instances of one class, `PageState.FormPage<Row, Form>`. Its fields are `formData`, `selected…` and `isModalOpen`. Its methods are the handlers that replace them. Each page contributes:
  - its empty form (`resetForm`);
  - its `openEditModal` copy (`EditForm`);
  - its search predicate;
  - its request (`Submit`).
- **One shared badge function.** The three identical copies of `getStatusColor` are one function, `StatusBadge.StatusColor`. The copies are in `src/app/admin/pengaduan/page.tsx:213-221`, `src/app/guru/riwayat/page.tsx:68-76` and `src/app/guru/dashboard/page.tsx:51-59`.
- **The create handlers answer 201**, so the model's success result is `Created`, not `Ok`.

## Model

| member | source | states |
|---|---|---|
| Domain.ParseStatus | src/app/admin/pengaduan/page.tsx:16 | A status text is accepted exactly when it names one of the four statuses, and then it is read back as that status. |
| Domain.ParseRole | src/app/admin/users/page.tsx:15 | A role text is accepted exactly when it is `admin` or `petugas`, and then it is read back as that role. |
| Domain.NullIfEmpty | src/app/api/guru/route.ts:59 | `x \|\| null` is null exactly for the empty text and otherwise keeps the text. |
| Db.Store.InsertUser | src/app/api/users/route.ts:62-67 | Appends the account under the next id, keeps ids and usernames unique, and changes nothing else. |
| Db.Store.InsertGuru | src/app/api/guru/route.ts:55-61 | Appends the staff member under the next id, keeps ids and NIPs unique, and keeps every complaint's guru reference valid. |
| Db.Store.InsertSiswa | src/app/api/siswa/route.ts:61-68 | Appends the student under the next id, keeps ids and NISNs unique, and keeps every complaint's siswa reference valid. |
| Db.Store.InsertPengaduan | src/app/api/pengaduan/route.ts:90-98 | Appends a complaint whose guru and siswa exist under the next id, and keeps the store valid. |
| Db.Store.InsertTemplate | src/app/api/template/route.ts:43-48 | Appends the template under the next id with no uniqueness condition, and keeps the store valid. |
| Db.Store.RefsExist | src/app/api/pengaduan/route.ts:14-29 | A stored complaint always has its guru and siswa in the store, so the listing's joins never miss. |
| Db.Find | src/app/api/pengaduan/route.ts:66-68 | A lookup by key finds a row exactly when the table has one with that key, and returns a row of the table with that key. The same lookup finds a complaint's guru, its siswa and its resolution. |
| Db.FindFirst | src/app/api/pengaduan/route.ts:30-36 | The row a lookup returns is the first one with that key. |
| UsersRoute.Post | src/app/api/users/route.ts:33-82 | Missing field gives 400, a taken username 409, an unknown role 500, each with the store unchanged. Otherwise one account is added with `hash(password)`, and the reply holds id, username and role only. The account count grows exactly on success. Usernames stay unique. |
| UsersRoute.Get | src/app/api/users/route.ts:6-23 | Lists every account as id/username/role, a permutation of the table, in strictly descending id order, each with its number of resolutions. |
| UsersRoute.UsernameIdentifiesAccount | src/app/api/users/route.ts:47-56 | In a valid store two accounts with the same username are the same account. |
| GuruRoute.Post | src/app/api/guru/route.ts:29-70 | Missing NIP or name gives 400, a taken NIP 409, each with the store unchanged. Otherwise one staff member is added with the given NIP and name, and an empty phone number stored as null. NIPs stay unique. |
| GuruRoute.Get | src/app/api/guru/route.ts:5-19 | Lists every staff member, a permutation of the table, in strictly descending id order, each with the number of complaints they filed. |
| SiswaRoute.Post | src/app/api/siswa/route.ts:35-77 | Any missing field of the four gives 400, a taken NISN 409, each with the store unchanged. Otherwise one student is added with exactly the four given values. NISNs stay unique. |
| SiswaRoute.Get | src/app/api/siswa/route.ts:5-25 | Lists exactly the students of the requested class (all when none is given), as a permutation of that filter, in strictly descending id order, each with the number of complaints about them. |
| TemplateRoute.Post | src/app/api/template/route.ts:29-57 | A missing name or body gives 400 with the store unchanged. Otherwise one template is added with the given name and body and the reply is 201. |
| TemplateRoute.PostTwice | src/app/api/template/route.ts:42-48 | Two creates with the same body both succeed and add two templates with the same name and different ids. |
| TemplateRoute.Get | src/app/api/template/route.ts:5-19 | Lists every template, a permutation of the table, in strictly descending id order, each with the number of resolutions that used it. |
| PengaduanRoute.StatusOrDefault | src/app/api/pengaduan/route.ts:94 | An empty status becomes `Menunggu`. Any other text is accepted exactly when it names a status, and is then read back as that status. |
| PengaduanRoute.StatusNameRoundTrip | src/app/api/pengaduan/route.ts:94 | A status sent by name is stored as that status. |
| PengaduanRoute.Post | src/app/api/pengaduan/route.ts:52-112 | Checks run in order: missing fields 400, unknown guru 404 "Guru not found" (reported even when the siswa is unknown too), unknown siswa 404 "Siswa not found", unknown status 500. Each leaves the store unchanged. Otherwise exactly one complaint is added: the given guru and siswa, filing time `now`, status or `Menunggu`, reason or null. The reply carries the complaint's guru and siswa rows. |
| PengaduanRoute.Join | src/app/api/pengaduan/route.ts:12-37 | The row of a complaint holds that complaint. |
| PengaduanRoute.JoinIsJoined | src/app/api/pengaduan/route.ts:14-37 | A listed row carries the selected fields of the complaint's stored guru and siswa. It has no resolution exactly when none refers to the complaint, and otherwise the id, date and note of a stored resolution of that complaint. |
| PengaduanRoute.JoinAll | src/app/api/pengaduan/route.ts:12-37 | One row per complaint, in the same order, each the join of the complaint at its position. |
| PengaduanRoute.TheResolution | src/app/admin/pengaduan/page.tsx:29-33 | In a valid store, a joined row of a complaint that has a resolution carries exactly that resolution's id, date and note. |
| PengaduanRoute.RowsJoined | src/app/api/pengaduan/route.ts:12-37 | Every row of the listing is correctly joined, and the rows hold the complaints in their order. |
| PengaduanRoute.MembersOfMatching | src/app/api/pengaduan/route.ts:10-13 | Any reordering of the status filter holds exactly the stored complaints with that status, or all of them when the status is empty. |
| PengaduanRoute.StoredRefsExist | src/app/api/pengaduan/route.ts:14-37 | Every stored complaint has a guru and a siswa to join with. |
| PengaduanRoute.RowsSorted | src/app/api/pengaduan/route.ts:38-40 | Joining keeps the newest-first order. |
| PengaduanRoute.Get | src/app/api/pengaduan/route.ts:5-49 | Gives 500 exactly for a non-empty unknown status. Otherwise it lists exactly the complaints with that status (all without one), as a permutation of that filter, newest filing first, each correctly joined. |
| StatsRoute.Get | src/app/api/stats/route.ts:5-38 | The four totals are the table sizes. Each per-status count is the number of complaints with that status. The four counts add up to the total. The store is only read. |
| StatsRoute.FilingRaisesOneCounter | src/app/api/stats/route.ts:21-24 | Adding a complaint raises exactly the counter of its status, by one. |
| StatusTally.TallyIsMultiplicity | src/app/api/stats/route.ts:21-24 | A status count is the multiplicity of that status among the complaints' statuses. |
| StatusTally.TalliesSum | src/app/api/stats/route.ts:20-36 | Because a status is exactly one of four, the four counts add up to the number of complaints. |
| StatusBadge.StatusColor | src/app/admin/pengaduan/page.tsx:213-221 | The grey default is given exactly to texts that are not one of the four statuses. |
| StatusBadge.StatusColorsDistinct | src/app/admin/pengaduan/page.tsx:213-221 | Two statuses get the same badge exactly when they are the same status. |
| Texts.ToLower | src/app/admin/guru/page.tsx:127-128 | Lower-casing keeps the length, maps each character, and leaves no upper-case letter. |
| Texts.ToLowerIdempotent | src/app/admin/guru/page.tsx:127-128 | Lower-casing twice is lower-casing once. |
| Texts.EmptyTermMatches | src/app/admin/guru/page.tsx:126-129 | An empty search term matches every field. |
| Texts.IgnoresCase | src/app/admin/guru/page.tsx:126-129 | The search test ignores the case of both the field and the term. |
| Texts.FieldMatchesItself | src/app/admin/guru/page.tsx:126-129 | A field matches a search for itself. |
| Texts.Dedup | src/app/admin/siswa/page.tsx:139 | `new Set` keeps exactly the values of the list, each once. |
| Texts.LexLeTotal | src/app/admin/siswa/page.tsx:139 | Any two texts are ordered one way or the other. |
| Texts.LexLeTransitive | src/app/admin/siswa/page.tsx:139 | The string order is transitive. |
| Texts.LexLeAntisymmetric | src/app/admin/siswa/page.tsx:139 | Texts ordered both ways are equal. |
| Texts.SortText | src/app/admin/siswa/page.tsx:139 | `sort()` returns an ascending permutation of its input. |
| Seqs.Filter | src/app/admin/guru/page.tsx:126-129 | `filter` keeps only elements that pass, and every element that passes. |
| Seqs.FilterIsSubsequence | src/app/admin/guru/page.tsx:126-129 | A filter keeps the original relative order. |
| Seqs.SortDesc | src/app/api/guru/route.ts:15-17 | The descending ordering returns a permutation sorted by the key, highest first. |
| Seqs.SortDescStrict | src/app/api/guru/route.ts:15-17 | Ordering rows with distinct keys gives a strictly descending order. |
| Decimal.ParseInt | src/app/admin/pengaduan/page.tsx:121-122 | `parseInt` is NaN exactly when no digit follows the optional sign. Otherwise its value is the value of the leading digit run, negated after a `-`. |
| Decimal.ParseNatIgnoresTail | src/app/admin/pengaduan/page.tsx:121-122 | `parseInt` reads the leading digits and ignores whatever text follows them. |
| Decimal.IntTextRoundTrip | src/app/admin/pengaduan/page.tsx:179-180 | `parseInt(n.toString())` is `n`, so the ids written into the form are read back unchanged. |
| Decimal.EmptyIsNaN | src/app/admin/pengaduan/page.tsx:121-122 | An unselected id is NaN, which the body sends as null. |
| PageState.SubmitRequest | src/app/admin/pengaduan/page.tsx:113-114 | The request is a `PUT` exactly when a row is selected, and then it goes to that row's id. Otherwise it is a `POST` to the collection. |
| PageState.FormPage.constructor | src/app/admin/pengaduan/page.tsx:56-66 | A page starts with the empty form, nothing selected and the modal closed. |
| PageState.FormPage.ResetForm | src/app/admin/pengaduan/page.tsx:197-205 | `resetForm` writes the empty form and changes nothing else. |
| PageState.FormPage.OpenCreateModal | src/app/admin/pengaduan/page.tsx:169-173 | Opens the modal on the empty form with nothing selected. |
| PageState.FormPage.OpenEditModal | src/app/admin/pengaduan/page.tsx:175-185 | Selects the row, copies it into the form and opens the modal. |
| PageState.FormPage.SubmitSucceeded | src/app/admin/pengaduan/page.tsx:137-139 | A successful submit closes the modal and resets the form, and leaves the selection as it was. |
| AdminPengaduanPage.Filtered | src/app/admin/pengaduan/page.tsx:207-211 | Keeps exactly the complaints whose siswa or guru name contains the term case-insensitively and whose status matches the filter or the filter is empty. Order is preserved. An empty term and filter keep everything. |
| AdminPengaduanPage.EditForm | src/app/admin/pengaduan/page.tsx:175-185 | Copies description and status. The ids become texts that parse back to the guru and siswa ids. A null reason becomes `''`, and a present reason is copied. |
| AdminPengaduanPage.Payload | src/app/admin/pengaduan/page.tsx:119-124 | The reason is sent as the form text when the status is `Ditolak` and as null otherwise. The status sent is read back as the form's status. The ids are the parsed form values. |
| AdminPengaduanPage.Submit | src/app/admin/pengaduan/page.tsx:113-124 | `PUT` to the selected complaint's id exactly when one is selected, else `POST` to the collection, always with the payload. |
| AdminPengaduanPage.ReasonOnlyWhenRejected | src/app/admin/pengaduan/page.tsx:123 | After the route's `\|\| null`, a reason is stored exactly when the form says `Ditolak` and gives one, and then it is the form text. |
| AdminPengaduanPage.EditFormRoundTrip | src/app/admin/pengaduan/page.tsx:108-124 | Submitting an unchanged edit form sends a `PUT` to the complaint's row with its own description, guru, siswa and status. For a rejected complaint with a stored reason, that reason is sent. In every other case the reason is empty: `''` for a null reason of a rejected complaint and `null` for any other status, both written `""` under the convention for request bodies. |
| AdminPengaduanPage.EmptyFormRefused | src/app/admin/pengaduan/page.tsx:197-205 | A reset form sent as a create fails the route's required-field check. |
| AdminPengaduanPage.CreateFromForm | src/app/admin/pengaduan/page.tsx:108-125 | A complaint created from the page has the form's status, and a reason exactly when the status is `Ditolak` and one is given. |
| AdminPengaduanPage.NewPage | src/app/admin/pengaduan/page.tsx:56-66 | The page starts with the `Menunggu` form, nothing selected and the modal closed. |
| AdminSiswaPage.Filtered | src/app/admin/siswa/page.tsx:133-137 | Keeps exactly the students whose name or NISN contains the term case-insensitively and whose class matches the filter or the filter is empty. Order is preserved. |
| AdminSiswaPage.UniqueKelas | src/app/admin/siswa/page.tsx:139 | The class list is sorted, has no repeats, and holds exactly the classes that occur among the students. |
| AdminSiswaPage.EditForm | src/app/admin/siswa/page.tsx:113-122 | Copies the four fields unchanged. |
| AdminSiswaPage.Submit | src/app/admin/siswa/page.tsx:56-62 | `PUT` to the selected student exactly when one is selected, with the form's four fields as the body. |
| AdminSiswaPage.EmptyFormRefused | src/app/admin/siswa/page.tsx:129-131 | A reset form sent as a create fails the route's required-field check. |
| AdminSiswaPage.NewPage | src/app/admin/siswa/page.tsx:28-31 | The page starts with the empty form, nothing selected and the modal closed. |
| AdminGuruPage.Filtered | src/app/admin/guru/page.tsx:126-129 | Keeps exactly the staff whose name or NIP contains the term case-insensitively. Order is preserved. An empty term keeps everyone. |
| AdminGuruPage.EditForm | src/app/admin/guru/page.tsx:111-113 | Copies NIP and name, and a stored phone number. The phone field is empty exactly when the stored number is null or empty. |
| AdminGuruPage.EditFormRoundTrip | src/app/admin/guru/page.tsx:49-60 | Submitting an unchanged edit form sends a `PUT` to the staff member's row with the NIP, the name and the phone number as the form shows them. |
| AdminGuruPage.Submit | src/app/admin/guru/page.tsx:54-61 | `PUT` to the selected staff member exactly when one is selected, with the form as the body. |
| AdminGuruPage.EmptyFormRefused | src/app/admin/guru/page.tsx:122-124 | A reset form sent as a create fails the route's required-field check. |
| AdminGuruPage.NewPage | src/app/admin/guru/page.tsx:26-29 | The page starts with the empty form, nothing selected and the modal closed. |
| AdminUsersPage.Filtered | src/app/admin/users/page.tsx:124-126 | Keeps exactly the accounts whose username contains the term case-insensitively. Order is preserved. An empty term keeps everyone. |
| AdminUsersPage.EditForm | src/app/admin/users/page.tsx:109-113 | Keeps username and role, and empties the password. |
| AdminUsersPage.Submit | src/app/admin/users/page.tsx:53-60 | `PUT` to the selected account exactly when one is selected. The role sent is read back as the form's role. |
| AdminUsersPage.CompleteCreateFormAccepted | src/app/admin/users/page.tsx:269 | A create form that passes the browser's required checks passes the route's required-field and role checks. |
| AdminUsersPage.EditNeedsNoPassword | src/app/admin/users/page.tsx:269 | The password is not required when an account is selected, and the edit form sends an empty one. |
| AdminUsersPage.NewPage | src/app/admin/users/page.tsx:25-28 | The page starts with an empty `admin` form, nothing selected and the modal closed. |
| AdminTemplatePage.Filtered | src/app/admin/template/page.tsx:134-136 | Keeps exactly the templates whose name contains the term case-insensitively. Order is preserved. An empty term keeps everything. |
| AdminTemplatePage.BodyIgnored | src/app/admin/template/page.tsx:134-136 | The template body plays no part in the search. |
| AdminTemplatePage.EditForm | src/app/admin/template/page.tsx:111-118 | Copies name and body. |
| AdminTemplatePage.Submit | src/app/admin/template/page.tsx:54-61 | `PUT` to the selected template exactly when one is selected, with the form as the body. |
| AdminTemplatePage.EditFormRoundTrip | src/app/admin/template/page.tsx:49-60 | Submitting an unchanged edit form sends a `PUT` to the template's row with its own name and body. |
| AdminTemplatePage.EmptyFormRefused | src/app/admin/template/page.tsx:130-132 | A reset form sent as a create fails the route's required-field check. |
| AdminTemplatePage.NewPage | src/app/admin/template/page.tsx:25-29 | The page starts with the empty form, nothing selected and the modal closed. |
| GuruRiwayatPage.Filtered | src/app/guru/riwayat/page.tsx:62-66 | Keeps exactly the complaints whose siswa name or description contains the term case-insensitively and whose status matches the filter or the filter is empty. Order is preserved. |
| GuruRiwayatPage.Numbered | src/app/guru/riwayat/page.tsx:152-155 | Each row keeps its complaint, and the numbers are strictly increasing, between 1 and the row count. |
| GuruRiwayatPage.NumbersAreOneToN | src/app/guru/riwayat/page.tsx:152-155 | A number is shown exactly when it lies between 1 and the row count. |
| GuruDashboardPage.Retained | src/app/guru/dashboard/page.tsx:36 | The dashboard keeps the first `min(5, n)` complaints of the listing, in order. |
| GuruDashboardPage.RetainedAreNewest | src/app/guru/dashboard/page.tsx:33-36 | On the newest-first listing, no complaint left out was filed after one that is shown. |
| GuruDashboardPage.Stats | src/app/guru/dashboard/page.tsx:44-49 | The total is the number shown, at most 5. Each count is the number of shown complaints with that status. The three counts plus the rejected ones make the total, so they never exceed it. |
| AdminSidebar.InitialOpenMenus | src/app/components/admin/AdminSidebar.tsx:32 | At first only "Data Master" is open. |
| AdminSidebar.Toggle | src/app/components/admin/AdminSidebar.tsx:34-40 | Toggling flips whether the name is open and keeps every other name's membership. A newly opened name goes at the end. |
| AdminSidebar.ToggleKeepsOthers | src/app/components/admin/AdminSidebar.tsx:34-40 | The other open names keep their relative order. |
| AdminSidebar.ToggleTwiceRestores | src/app/components/admin/AdminSidebar.tsx:34-40 | Toggling a closed name twice gives back the original list. |
| AdminSidebar.ToggleKeepsDistinct | src/app/components/admin/AdminSidebar.tsx:34-40 | A list without repeats has none after a toggle. |

## Left out

- The database engine is not modelled. Prisma's query semantics, transactions and connection failures are replaced by the in-memory `Db.Store`. The only 500s modelled are those an enumeration column causes. Each handler runs atomically, so the race between a `findUnique` check and the following `create` is not modelled.
- bcrypt's algorithm and cost factor are not modelled. `UsersRoute.Post` takes the hash as an opaque function parameter.
- `new Date()` is not modelled. The filing time is a natural-number parameter.
- Dates as strings and `toLocaleDateString` are not modelled.
- `toLowerCase` is modelled on ASCII letters only. Unicode case mapping is not modelled.
- The default string `sort` compares UTF-16 code units; `Texts.SortText` compares characters. The two orders can differ only for characters outside the Basic Multilingual Plane.
- Every `POST` handler parses its JSON body inside its `try`, so a malformed body gets a 500 with the handler's message. The model starts from an already-parsed body and leaves that path out.
- PengaduanRoute.MissingRequired: an id is kept only as the number `parseInt` reads from it, not as the raw JSON value. So a fractional id with absolute value below 1, such as `0.5`, is truthy in the handler's `!id_guru` test and gets 404, but the model reads it as 0 and answers 400.
- `parseInt` is modelled without leading white space and for base 10 only. Request body fields that are not strings (as texts) or numbers (as ids) are not modelled.
- PengaduanRoute.Get: ties between complaints filed at the same instant come back in an unspecified order. The contract states only the descending order and the permutation.
- PengaduanRoute.JoinIsJoined: on tables that break the one-resolution-per-complaint rule, a complaint is joined with the first of its resolutions (`Db.FindFirst`), and the contract promises only one of them. In a valid store there is only one, and `TheResolution` pins it.
- No modelled handler writes the resolution table `tindak_lanjut`. The listings only count and join it.
- Not modelled: the update and delete handlers (`src/app/api/*/[id]/route.ts`), `handleDelete`, `openViewModal`, `openDeleteDialog`, the `submitting` flag, `fetch`, toasts, loading states and all rendering.
- The page lists hold the route's records without their `_count`, since no modelled page logic reads it.
- Not modelled: the login page (`src/app/page.tsx`), the seed script (`prisma/seed.ts`), the staff complaint form (`src/app/guru/pengaduan/page.tsx`), and the presentation components (layouts, headers, sidebars other than the admin one, dialogs, toasts, spinners).
- The sidebar's `menu` prop and the rendering of `isOpen` and `active` are not modelled; only the open-group list is.
- The staff dashboard shows the first five complaints of all complaints, not only the signed-in staff member's. The model keeps that behaviour.
