/** The complaint records of the dashboard's bundled dataset and the three statuses it knows. */
module Records {
  import opened Wrappers

  /** The status a complaint is being worked on. */
  const InProgress: string := "В работе"
  /** The status of a complaint that was dealt with. */
  const Resolved: string := "Решено"
  /** The status of a complaint that was turned down. */
  const Rejected: string := "Отклонено"

  /** One of the three statuses the dashboard counts and colours. */
  predicate IsKnownStatus(s: string) {
    s == InProgress || s == Resolved || s == Rejected
  }

  /** One citizen complaint. `None` stands for a field the record does not carry; a coordinate
      is `Some` exactly when it is a JavaScript number. `status` is always there; the empty
      string stands for a blank one. */
  datatype Complaint = Complaint(
    id: int,
    category: Option<string>,
    address: Option<string>,
    status: string,
    createdAt: Option<string>,
    description: Option<string>,
    latitude: Option<real>,
    longitude: Option<real>,
    photo: Option<string>)
}
