/** The records the booking code reads and writes: appointments and services. */
module Models {
  import opened Wrappers
  import opened PhpValues

  /** The status column of an appointment. */
  datatype Status = Pending | Confirmed | Cancelled | Completed

  datatype Appointment = Appointment(
    id: nat,
    companyId: nat,
    serviceId: nat,
    clientName: string,
    clientPhone: string,
    clientEmail: string,
    date: string,
    time: string,
    durationMinutes: int,
    status: Status,
    notes: string)

  /** A service a company offers. `formattedPrice` is the value of the record's
      formatted_price accessor, whose code is not part of this model. */
  datatype Service = Service(
    id: nat,
    companyId: nat,
    name: string,
    description: Option<string>,
    price: Option<real>,
    formattedPrice: string,
    durationMinutes: int,
    kind: string,
    isActive: bool)

  /** The company a bot belongs to, with what the webhook reads of it: its calendar settings
      as stored and whether, and to which chat, it forwards new bookings to the owner. */
  datatype Company = Company(
    id: nat,
    name: string,
    settings: Value,
    notificationsEnabled: bool,
    ownerChatId: Option<string>)
}
