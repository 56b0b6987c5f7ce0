/** The parts of a mobile-client report that both report stores and the
    screens share: its status, the vehicles involved and its evidence. */
module ReportTypes {

  /** `'pending' | 'complete'`. */
  datatype Status = Pending | Complete

  /** A vehicle as a report records it. */
  datatype Vehicle = Vehicle(registrationNumber: string, make: string, model: string, damage: string)

  /** `'image' | 'document'`. */
  datatype EvidenceKind = Image | Document

  /** One piece of evidence attached to a report. */
  datatype Evidence = Evidence(kind: EvidenceKind, uri: string, description: string)
}
