/** A company as the repository hands it out (App/Company.ts). Read-only;
    no registration rule looks at its classification. */
module Companies {

  /** The company tier. No business rule depends on it. */
  datatype Classification = Bronze | Silver | Gold

  datatype Company = Company(id: string, name: string, classification: Classification)
}
