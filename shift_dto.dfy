/** `CreateShiftDto` (backend/src/dto/create-shift.dto.ts): the body of a create or update
    request, its field constraints, and the typed input the service works on. */
module ShiftDto {
  import opened Wrappers
  import opened Domain
  import ShiftDateDto

  /** The `description` member of a request body: left out, sent as `null`, or sent as text.
      `@IsOptional` lets both of the first two through, and they differ once the body is
      `Object.assign`ed onto a stored shift. */
  datatype DescriptionField = Absent | Null | Text(text: string)

  datatype CreateShiftDto = CreateShiftDto(
    title: string, description: DescriptionField, dates: seq<ShiftDateDto.CreateShiftDateDto>)

  /** A validated payload in the service's terms. */
  datatype ShiftInput = ShiftInput(
    title: string, description: DescriptionField, dates: seq<ShiftDateDto.ShiftDateEntry>)

  const MaxTitleLength := 100
  const MaxDescriptionLength := 500
  const MinDates := 1
  const MaxDates := 10

  /** @IsString @IsNotEmpty @MaxLength(100) */
  predicate ValidTitle(title: string) { 1 <= |title| <= MaxTitleLength }

  /** @IsString @IsOptional @MaxLength(500): absent, `null`, or a string of at most 500
      characters. */
  predicate ValidDescription(description: DescriptionField)
  {
    description.Text? ==> |description.text| <= MaxDescriptionLength
  }

  /** @IsArray @ValidateNested({ each: true }) @ArrayMinSize(1) @ArrayMaxSize(10).
      Entries are validated one by one; nothing relates an entry to another. */
  predicate IsValid(dto: CreateShiftDto)
  {
    ValidTitle(dto.title) &&
    ValidDescription(dto.description) &&
    MinDates <= |dto.dates| <= MaxDates &&
    forall i :: 0 <= i < |dto.dates| ==> ShiftDateDto.IsValid(dto.dates[i])
  }

  /** The request body as the service sees it, when it passes validation. */
  function Parse(dto: CreateShiftDto): (r: Option<ShiftInput>)
    ensures r.Some? <==> IsValid(dto)
    ensures r.Some? ==>
      r.value.title == dto.title && r.value.description == dto.description &&
      1 <= |r.value.dates| == |dto.dates| <= 10 &&
      forall i :: 0 <= i < |dto.dates| ==> ShiftDateDto.Parse(dto.dates[i]) == Some(r.value.dates[i])
  {
    if IsValid(dto) then
      var entries := seq(|dto.dates|, i requires 0 <= i < |dto.dates| => ShiftDateDto.Parse(dto.dates[i]).value);
      Some(ShiftInput(dto.title, dto.description, entries))
    else None
  }

  /** Validity says nothing about how entries relate: any valid entry may be repeated, so two
      entries of one payload may overlap each other completely. */
  lemma {:induction false} RepeatedEntryIsValid(title: string, e: ShiftDateDto.CreateShiftDateDto, n: nat)
    requires ValidTitle(title) && ShiftDateDto.IsValid(e) && 1 <= n <= MaxDates
    ensures IsValid(CreateShiftDto(title, Absent, seq(n, _ => e)))
  {
  }
}
