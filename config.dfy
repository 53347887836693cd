/** The typed configuration the provisioning tool reads and writes back as the lock state.
    Only the fields the core consults or fills in are modelled. */
module Config {
  import opened Wrappers

  /** The `config` table of a KMS key set: key id -> the AWS region the key lives in. */
  datatype KmsConfig = KmsConfig(availableKeys: map<string, string>)

  /** How the keys of one role are held. Only `Kms` carries behaviour in the core. */
  datatype SigningKeyConfig =
    | File
    | Kms(keyId: Option<string>, config: Option<KmsConfig>)
    | Ssm

  /** A parsed URL. */
  datatype Url = Url(href: string)

  /** One repository entry. The last four fields are outputs of the pipeline. */
  datatype RepoConfig = RepoConfig(
    fileHostingConfigName: Option<string>,
    signingKeys: Option<SigningKeyConfig>,
    rootKeys: Option<SigningKeyConfig>,
    pubKeyThreshold: Option<string>,
    rootKeyThreshold: Option<string>,
    metadataBaseUrl: Option<Url>,
    targetsUrl: Option<Url>,
    rootRoleUrl: Option<Url>,
    rootRoleSha512: Option<string>)

  /** One named S3 storage entry; `stackArn` and `bucketName` are outputs. */
  datatype S3Config = S3Config(
    region: Option<string>,
    s3Prefix: string,
    vpcEndpointId: Option<string>,
    stackArn: Option<string>,
    bucketName: Option<string>)

  datatype AwsConfig = AwsConfig(s3: Option<map<string, S3Config>>)

  /** The whole configuration as a value: what the lock file records. */
  datatype LockState = LockState(repo: Option<map<string, RepoConfig>>, aws: Option<AwsConfig>)
}
