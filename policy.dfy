/** The S3 bucket policy document, as the JSON value the policy step edits. */
module BucketPolicy {
  import opened Wrappers

  datatype Condition = StringEquals(key: string, value: string)

  /** A policy statement: one the model can read field by field, or any other JSON
      statement, kept verbatim. */
  datatype Statement =
    | Grant(effect: string, principal: string, action: string, resource: string, condition: Condition)
    | Verbatim(json: string)

  /** `statements` is None when the document has no `Statement` member or that member
      is not a JSON array. */
  datatype Policy = Policy(version: Option<string>, statements: Option<seq<Statement>>)

  /** The policy language version of a fresh document. */
  const PolicyVersion := "2008-10-17"

  /** The policy the step starts from when no policy can be fetched. */
  const DefaultPolicy := Policy(Some(PolicyVersion), Some([]))

  /** The words of the read grant. */
  const AllowEffect := "Allow"
  const AnyPrincipal := "*"
  const GetObjectAction := "s3:GetObject"
  const BucketArnPrefix := "arn:aws:s3:::"
  const EveryObject := "/*"
  const SourceVpceKey := "aws:sourceVpce"

  /** The statement granting read access to `bucket` under `prefix`, only through the VPC
      endpoint `vpcId`. */
  function ReadGrant(bucket: string, prefix: string, vpcId: string): Statement
  {
    Grant(AllowEffect, AnyPrincipal, GetObjectAction, BucketArnPrefix + bucket + prefix + EveryObject,
          StringEquals(SourceVpceKey, vpcId))
  }

  /** Characters that can be placed between the quotes of a JSON string literal as they are. */
  predicate JsonLiteralSafe(s: string) {
    forall i :: 0 <= i < |s| ==> s[i] != '"' && s[i] != '\\' && s[i] >= ' '
  }
}
